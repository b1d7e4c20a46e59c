# FramJet logger: a verified model of its decision logic

FramJet logger is a small TypeScript logging library. Loggers wrap the
browser console. Each one is bound to a name and a severity level. A shared
configuration store decides which loggers are enabled. Messages go through
a printf-style formatter and are routed to the console method that matches
their level.

This project models the parts of the library that decide what reaches the
console, and proves properties about them:

- `levels.dfy` (module `Levels`) holds the table of nine severity levels
  from `src/level.ts`, and the two lookups the library does over it:
  - a property read by key;
  - `Array.prototype.find` by name.
- `format.dfy` (module `Format`) models `msgFormat` from `src/utils.ts`.
  - The `/(%?)(%([ojds]))/g` replace pass is a left-to-right scanner. The
    `args` array is a queue that the replace callback drains with `shift`
    and refills with `unshift`.
  - The `%%` collapse is the second pass.
  - `MsgFormat` is an imperative method. Its first pass,
    `ReplacePlaceholders`, is a while loop that calls `ReplaceCallback`
    once per scanned piece. A match runs the callback. A plain character
    is copied unchanged, as `replace` does without calling the callback.
    `ReplacePlaceholders` is proved equal to `Substitute ∘ Scan`, and
    `MsgFormat` to `Formatted`, which runs that pass only when the
    argument list is non-empty and then applies `Collapse`.
  - The module also holds the last-segment step of `getSourceFileName`.
- `dispatch.dfy` (module `Dispatch`) models `mapLogLevel` from
  `src/console.ts`. The warning printed by its default branch becomes part
  of the result.
- `config.dfy` (module `Config`) models the store built by
  `createLoggerOptions` in `src/logger.ts`.
  - It is a class, `LevelStore`, whose fields are the three closure
    variables: the global level, the exact-name map, and the pattern map in
    insertion order.
  - Its methods are `getLevel` (with its search loop), `setLevel` and
    `setOff` … `setAll`.
  - Each method is proved against the pure functions `Resolve` and
    `Assign` over a `Settings` value.
  - The initial global level depends on the build environment, so it takes
    the `PROD` flag and the `LOG_LEVEL` string as parameters.
- `api.dfy` (module `Api`) models the part of `createLoggerApi` in
  `src/logger.ts` that decides what reaches the console:
  - `isEnabled`;
  - `formatText`, with its partition loop over `#!` colour directives;
  - the enabled gates of `log` and `count`.

  Console calls are returned as a list of `ConsoleCall` values instead of
  being performed.
- `creator.dfy` (module `Creator`) models `createLogger` from
  `src/creator.ts`:
  - `getName`;
  - `at` with a key string (upper-cased character by character) or with a
    level record;
  - the six `atX` shortcuts.
- `wrappers.dfy` holds `Option` and `Result`.

JavaScript values are modelled by `Format.Value`:

- `undefined`;
- strings;
- safe integers;
- opaque references, standing for objects, arrays, booleans, `null` and
  floats.

A `Format.Host` record supplies the host conversions that are not modelled,
as uninterpreted functions:

- `refString`: `'' + v` of a reference;
- `refNumber`: `String(Number(v))` of a reference;
- `refJson`: `JSON.stringify(v)` of a reference, or `undefined`;
- `refIsArray`: `Array.isArray(v)` of a reference;
- `parseNumber`: `String(Number(s))` of a string;
- `quoteJson`: `JSON.stringify(s)` of a string.

A regular expression used as a matcher is an opaque `PatternId`. Its
`test(name)` is the store's uninterpreted `matches` function.

On an escaped match `%%X` the callback still shifts one argument, and it
unshifts the value after the flag conversion, not the argument itself
(`src/utils.ts:30-55`):

- `Format.EscapedConvertsTailFront` shows that the front of the returned
  tail becomes its conversion.
- `Format.EscapedConvertsNextArgument` shows that a later placeholder
  receives the converted value.
- When the queue is already empty, the conversion of `undefined` is pushed
  back, so the queue grows by one. `Format.EscapedAfterExhaustion` shows
  this.

## Model

| member | source | states |
|---|---|---|
| Levels.CreateLevel | src/level.ts:6-11 | the record holds exactly the given name and value |
| Levels.EntriesHoldValues | src/level.ts:13-23 | the `Level` object has nine properties in declaration order, their values are the nine levels, and the keys are pairwise distinct |
| Levels.RanksStrictlyDecrease | src/level.ts:14-22 | ranks strictly decrease from OFF through SEVERE … FINEST to ALL |
| Levels.SentinelsAreExtreme | src/level.ts:14-22 | OFF is 2^53−1, ALL is −(2^53−1), and every other level lies strictly between them |
| Levels.NamesDistinct | src/level.ts:14-22 | the nine names are pairwise distinct |
| Levels.NamesStartSmall | src/level.ts:14-22 | every name is non-empty and starts with a small letter |
| Levels.KeysStartWithInitials | src/level.ts:14-22 | every key is non-empty and starts with one of O, S, W, I, C, F, A |
| Levels.Get | src/creator.ts:20-24 | a property read by key is `undefined` exactly when no key equals it; otherwise it gives the value of an entry with that key |
| Levels.GetByKey | src/creator.ts:20-24 | reading a key of the table gives that key's level |
| Levels.OtherInitialIsNoKey | src/creator.ts:20-22 | a string whose first letter no key starts with reads `undefined` |
| Levels.FindByName | src/logger.ts:108-110 | `find` by name gives None exactly when no level has the name; otherwise it gives the first level, in table order, whose name is exactly the given one |
| Levels.FindByOwnName | src/logger.ts:108-114 | looking up a table level by its own name finds that level |
| Levels.CapitalIsNoName | src/logger.ts:108-115 | a string starting with a capital, such as a key, names no level |
| Format.FlagOf | src/utils.ts:25 | a flag character is recognised exactly when it is one of `o`, `j`, `d`, `s`, and it maps back to itself |
| Format.Convert | src/utils.ts:31-47 | every conversion gives a string or `undefined`; `s` and `d` always give a string |
| Format.ObjectFlagFallsThrough | src/utils.ts:32-40 | `o` acts as `j` on an array and falls through to `s` on anything else |
| Format.Next | src/utils.ts:25 | one scanner step consumes between 1 and the remaining length of characters, and the consumed characters are exactly the text of the piece found |
| Format.NextPrefersEscaped | src/utils.ts:25 | the match rule at one position: `%%X` is always an escaped match (the optional `%` is greedy); a placeholder is found only at `%X` where no escaped match starts; a character is copied only where neither match starts |
| Format.Scan | src/utils.ts:25-27 | the global scan, resuming just past each match; its properties are RenderScan, NoPercentScansToText, LeftmostGreedyScan and ScanSingle |
| Format.RenderScan | src/utils.ts:25-27 | the scan loses and invents nothing: its pieces spell the input |
| Format.NoPercentScansToText | src/utils.ts:25 | a string without `%` scans to plain characters only |
| Format.LeftmostGreedyScan | src/utils.ts:25 | in "%%%s" the match is the escaped "%%s" at the second character and the first `%` is plain text |
| Format.ScanSingle | src/utils.ts:25 | `%X` alone is one unescaped match and `%%X` alone is one escaped match |
| Format.Digits | src/utils.ts:38-43 | the decimal digits of a natural number: at least one, each between '0' and '9'; DigitsRoundTrip states that they denote the number |
| Format.Decimal | src/console.ts:23 | `String(n)` of an integer, as `'' + v`, `String(Number(v))`, `JSON.stringify(v)` and the template literal write it; DecimalRoundTrip and DecimalExamples state its properties |
| Format.DigitsRoundTrip | src/utils.ts:38-43 | the decimal digits of a natural number read back to that number, most significant digit first, with no leading zero |
| Format.DecimalRoundTrip | src/console.ts:23 | the decimal form of an integer is a minus sign exactly for a negative one, followed by the digits of its magnitude |
| Format.DecimalExamples | src/console.ts:23 | 1000 is written "1000" and -123 is written "-123" |
| Format.ToStr | src/utils.ts:38-40 | `'' + v`: "undefined" for `undefined`, the string itself, the decimal form of a safe integer, the host's string of any other value; used by `Convert` and by `CallbackQueue` |
| Format.NumStr | src/utils.ts:41-43 | `String(Number(v))`: "NaN" for `undefined`, the decimal form of a safe integer, the host's conversion otherwise; used by `Convert` |
| Format.Json | src/utils.ts:44-46 | `JSON.stringify(v)`: `undefined` for `undefined`, the decimal form of a safe integer, the host's serialisation otherwise; used by `Convert` |
| Format.IsArray | src/utils.ts:33 | `Array.isArray`: only an opaque value can be an array, as the host says; used by `ObjectFlagFallsThrough` |
| Format.Shift | src/utils.ts:30 | shift from an empty queue gives `undefined` and an empty queue; otherwise it gives the front value and the rest |
| Format.CallbackQueue | src/utils.ts:27-56 | an unescaped match takes the front argument (or `undefined`) and emits its conversion; an escaped match emits its own text and leaves a queue of the same length with the front replaced by its conversion (or the conversion of `undefined` when the queue was empty); plain text changes nothing |
| Format.Callback | src/utils.ts:27-56 | the replace callback as a function of the piece and the queue; its effect is stated by CallbackQueue |
| Format.Substitute | src/utils.ts:27-56 | the first replace pass, the callback applied to each piece in turn with the queue threaded through; its properties are SubstituteTail, SubstituteTailNoEscapes and SubstituteKeepsText |
| Format.Collapse | src/utils.ts:60 | the `%%` to `%` pass; its properties are CollapseEscapePercents, CollapseWithoutPairs, CollapseNoPercent, CollapsePair, CollapseKeep and CollapseExamples |
| Format.Formatted | src/utils.ts:21-63 | msgFormat as a value; MsgFormat computes it, and its properties are EmptyArgsOnlyCollapse, FormattedTail, FormattedTailNoEscapes and FormattedWithoutPlaceholders |
| Format.ReplaceCallback | src/utils.ts:27-56 | the callback method (shift, convert, then return or unshift) computes exactly the function `Callback` |
| Format.ReplacePlaceholders | src/utils.ts:27-57 | the replace loop computes exactly the substitution of the scanned pieces, threading the queue |
| Format.MsgFormat | src/utils.ts:21-63 | msgFormat computes exactly `Formatted`: substitution only for a non-empty argument list, then the `%%` collapse |
| Format.SubstituteTail | src/utils.ts:30-55 | with more arguments than unescaped placeholders, the tail left over is shorter by exactly their number and equals the original arguments in order past its front; otherwise at most one value is left |
| Format.SubstituteTailNoEscapes | src/utils.ts:30-51 | without escaped matches, the tail is exactly the arguments after the first one per placeholder, or empty |
| Format.SubstituteKeepsText | src/utils.ts:49-55 | without unescaped placeholders, the first pass reproduces the format text |
| Format.EmptyArgsOnlyCollapse | src/utils.ts:26-62 | with no arguments, only `%%` collapses and the returned tail is empty |
| Format.FormattedTail | src/utils.ts:26-62 | msgFormat's returned tail has the length and order described for SubstituteTail, and is empty for no arguments |
| Format.FormattedTailNoEscapes | src/utils.ts:26-62 | with no escaped match, msgFormat returns exactly the unconsumed suffix of the arguments |
| Format.FormattedWithoutPlaceholders | src/utils.ts:26-62 | a format without unescaped placeholders only has its `%%` collapsed, whatever the arguments |
| Format.CollapseEscapePercents | src/utils.ts:60 | the collapse undoes doubling every `%` |
| Format.CollapseWithoutPairs | src/utils.ts:60 | a string without `%%` is left unchanged by the collapse |
| Format.CollapseNoPercent | src/utils.ts:60 | a string without `%` is left unchanged by the collapse |
| Format.CollapsePair | src/utils.ts:60 | a leading `%%` becomes one `%` and the collapse continues after it |
| Format.CollapseKeep | src/utils.ts:60 | a leading character other than `%` is kept |
| Format.CollapseSingle | src/utils.ts:60 | `%%X` collapses to `%X` |
| Format.CollapseExamples | src/utils.ts:60 | pairs are taken left to right without overlap: "%%%" gives "%%", "%%%%" gives "%%", "100%%s" gives "100%s" |
| Format.PlaceholderExample | src/utils.ts:21-63 | `msgFormat("%s-%d", "a", 3)` gives `["a-3", []]` |
| Format.EscapedExample | src/utils.ts:21-63 | `msgFormat("%%s", "a")` gives `["%s", ["a"]]` |
| Format.PlainExample | src/utils.ts:21-63 | `msgFormat("no placeholders", 1, 2)` gives `["no placeholders", [1, 2]]` |
| Format.MissingArgumentIsUndefined | src/utils.ts:30-40 | when the arguments run out, `%s` renders "undefined": `msgFormat("%s %s", "a")` gives `["a undefined", []]` |
| Format.EscapedConvertsTailFront | src/utils.ts:49-55 | an escaped match pushes back the converted argument: `msgFormat("%%d", 7)` leaves `["7"]` |
| Format.EscapedConvertsNextArgument | src/utils.ts:49-55 | a later placeholder receives the pushed-back conversion: `msgFormat("%%d %s", undefined)` gives `["%d NaN", []]` |
| Format.EscapedAfterExhaustion | src/utils.ts:49-55 | an escaped match after the arguments ran out pushes back the conversion of `undefined`: `msgFormat("%s %%s", "a")` gives `["a %s", ["undefined"]]` |
| Format.LastSegment | src/utils.ts:18 | the result is a suffix of the path without '/', and it is the whole path or is preceded by a '/' |
| Format.LastSegmentOfJoin | src/utils.ts:18 | the last segment of `dir + "/" + file` is `file`, for any `file` without '/' |
| Dispatch.UnknownLevelWarning | src/console.ts:22-24 | the warning text, with the level's name and its value written in decimal; MapLogLevel and SentinelsFallBack state when it is emitted |
| Dispatch.MapLogLevel | src/console.ts:5-28 | a warning is emitted exactly for levels the switch does not name, and then the sink is console.log; the named levels never go to console.log |
| Dispatch.SevereWarningInfoSinks | src/console.ts:7-12 | SEVERE goes to error, WARNING to warn and INFO to info, with no warning |
| Dispatch.DebugSinkLevels | src/console.ts:13-20 | among the table's levels, exactly CONFIG, FINE, FINER and FINEST go to debug |
| Dispatch.SentinelsFallBack | src/console.ts:21-26 | OFF and ALL go to console.log after exactly one warning that names the level and its value |
| Dispatch.RoutingFollowsRank | src/console.ts:5-20 | among the named levels, a more severe level never goes to a less severe sink |
| Config.FirstMatch | src/logger.ts:129-133 | the search gives None exactly when no pattern matches; otherwise it gives the index of a matching pattern with no match before it |
| Config.Resolve | src/logger.ts:118-136 | getLevel's precedence: no name gives the global level; else the exact entry; else the first matching pattern in insertion order; else the global level |
| Config.Upsert | src/logger.ts:150-153 | `Map.set` keeps keys distinct; an existing key keeps its position and gets the new level, with every other entry unchanged; a new key is appended last |
| Config.Assign | src/logger.ts:137-157 | setLevel changes exactly one part: the global level, one exact entry, or the pattern map by Upsert |
| Config.InitialLevel | src/logger.ts:98-115 | the initial level is a table level; LOG_LEVEL selects the level with exactly that name when there is one; otherwise it is INFO for a production build and FINE otherwise |
| Config.InitialLevelExamples | src/logger.ts:98-115 | FINE by default, INFO under PROD, "finest" selects FINEST, and the key "INFO" is not a name, so it leaves FINE |
| Config.AssignGlobal | src/logger.ts:118-142 | after setLevel(l), getLevel() is l and every name with an exact entry keeps it |
| Config.AssignExact | src/logger.ts:118-148 | after setLevel(l, name), getLevel(name) is l and every other query is unchanged |
| Config.ExactBeatsPattern | src/logger.ts:124-133 | setting a pattern never changes the level of a name with an exact entry |
| Config.FirstMatchAppend | src/logger.ts:129-133 | appending an entry keeps an earlier first match and otherwise finds the new entry if it matches |
| Config.NewPatternGoesLast | src/logger.ts:150-153 | a new pattern decides only names that no exact entry and no earlier pattern decided |
| Config.ReplacedPatternKeepsPriority | src/logger.ts:150-153 | re-setting a pattern that is present keeps its priority: every name it decided gets the new level |
| Config.LevelStore.constructor | src/logger.ts:97-116 | a new store has the initial global level and empty name and pattern maps |
| Config.LevelStore.GetLevel | src/logger.ts:118-136 | the lookup with its search loop returns exactly `Resolve` of the current state |
| Config.LevelStore.SetLevel | src/logger.ts:137-157 | the new state is `Assign` of the old state, and pattern keys stay distinct |
| Config.LevelStore.SetOff | src/logger.ts:158-160 | exactly setLevel(OFF, m) |
| Config.LevelStore.SetSevere | src/logger.ts:161-163 | exactly setLevel(SEVERE, m) |
| Config.LevelStore.SetWarning | src/logger.ts:164-166 | exactly setLevel(WARNING, m) |
| Config.LevelStore.SetInfo | src/logger.ts:167-169 | exactly setLevel(INFO, m) |
| Config.LevelStore.SetConfig | src/logger.ts:170-172 | exactly setLevel(CONFIG, m) |
| Config.LevelStore.SetFine | src/logger.ts:173-175 | exactly setLevel(FINE, m) |
| Config.LevelStore.SetFiner | src/logger.ts:176-178 | exactly setLevel(FINER, m) |
| Config.LevelStore.SetFinest | src/logger.ts:179-181 | exactly setLevel(FINEST, m) |
| Config.LevelStore.SetAll | src/logger.ts:182-184 | exactly setLevel(ALL, m) |
| Api.Enabled | src/logger.ts:216 | the comparison of isEnabled: the bound value is at least the configured value; its properties are EnabledMonotone and SentinelThresholds |
| Api.EnabledIn | src/logger.ts:216 | isEnabled against a configuration, with the configured level given by Resolve; IsEnabled computes it |
| Api.EnabledMonotone | src/logger.ts:215-217 | a more severe bound level, or a lower threshold, keeps a logger enabled |
| Api.SentinelThresholds | src/logger.ts:215-217 | an ALL threshold enables every level; an OFF threshold enables only an OFF-bound logger; an OFF-bound logger is always enabled |
| Api.SetOffSilences | src/logger.ts:215-217 | after setOff(name), a logger of that name is enabled exactly when it is bound to OFF |
| Api.WarningThreshold | src/logger.ts:215-217 | with the global level at WARNING and nothing configured for the name, INFO is off and SEVERE is on |
| Api.IsEnabled | src/logger.ts:215-217 | isEnabled is exactly "bound value ≥ getLevel(name).value" on the store's current state |
| Api.ReadsStoreEachCall | src/logger.ts:215-217 | the answer is re-read on every call: an INFO logger that was enabled is disabled after setWarning on its name |
| Api.IsDirective | src/logger.ts:201 | a colour directive is a string argument that starts with "#!" |
| Api.Colors | src/logger.ts:198-206 | the colour side of the partition, each directive without its first two characters; FormatText's loop builds it, and PartitionAppend, PartitionSizes and ColorSide state its properties |
| Api.Plain | src/logger.ts:198-206 | the normal side of the partition; FormatText's loop builds it, and PartitionAppend, PartitionSizes and PlainSide state its properties |
| Api.PartitionAppend | src/logger.ts:198-206 | the partition distributes over concatenation, so both sides keep argument order |
| Api.PartitionSizes | src/logger.ts:198-206 | every argument lands on exactly one side |
| Api.PlainSide | src/logger.ts:200-205 | the normal side holds only arguments of the input that are not directives |
| Api.ColorSide | src/logger.ts:200-203 | each colour argument is a string that, prefixed with "#!", is an argument of the input |
| Api.NoDirectivesKeepsArguments | src/logger.ts:198-206 | without directives there are no colour arguments and all arguments are kept |
| Api.Rendered | src/logger.ts:194-212 | the content is "[name] " followed by msgFormat's message over the non-directive arguments, and the extra arguments are the colour arguments followed by msgFormat's leftovers |
| Api.DirectiveSkipped | src/logger.ts:194-212 | a directive is never substituted: `formatText("%s", "#!color: red", "a")` under "app" gives `["[app] a", ["color: red"]]` |
| Api.FormatText | src/logger.ts:194-212 | the partition loop and msgFormat compute exactly `Rendered` |
| Api.LogCalls | src/logger.ts:218-228 | a disabled log makes no console call; an enabled log at a named level makes one call to its sink with the content and extra arguments; at OFF or ALL it makes the warning and then a console.log call |
| Api.Log | src/logger.ts:218-228 | log makes exactly `LogCalls` for the level configured for the name at the time of the call |
| Api.Tick | src/logger.ts:322-324 | tick makes no call exactly on the inert counter, and on a live one it is console.count with the counter's label |
| Api.Reset | src/logger.ts:319-321 | reset makes no call exactly on the inert counter, and on a live one it is console.countReset with the counter's label |
| Api.CountLabel | src/logger.ts:309-314 | there is a label exactly when one was given, and it is "[name] " followed by the label with its `%%` collapsed |
| Api.Count | src/logger.ts:297-326 | disabled: no call and an inert counter; enabled: one console.count now, and later tick and reset on that same label |
| Creator.CreateLogger | src/creator.ts:12-16 | createLogger binds the name; GetNameOfCreate states what getName then returns |
| Creator.GetName | src/creator.ts:14-16 | getName; GetNameOfCreate states its result |
| Creator.GetNameOfCreate | src/creator.ts:12-16 | getName gives the name the logger was created with |
| Creator.UpperChar | src/creator.ts:19 | toUpperCase on one character, for the characters whose upper case is ASCII; UpperCharShape and UpperCharFixed state its properties |
| Creator.ToUpperCase | src/creator.ts:19 | toUpperCase character by character never shortens the string; ToUpperCaseAppend, CapitalsFixed, ToUpperCaseIdempotent and UpperOfSmall state its other properties |
| Creator.UpperCharShape | src/creator.ts:19 | a small letter becomes its capital; any other character is kept or becomes capitals, and only a non-ASCII one can change |
| Creator.ToUpperCaseAppend | src/creator.ts:19 | upper-casing works piece by piece |
| Creator.CapitalsFixed | src/creator.ts:19 | capitals are left as they are |
| Creator.UpperCharFixed | src/creator.ts:19 | the upper case of one character is already upper case |
| Creator.ToUpperCaseIdempotent | src/creator.ts:19 | upper-casing twice is upper-casing once |
| Creator.UpperOfSmall | src/creator.ts:19 | a word of small letters upper-cases to the capitals that spell it |
| Creator.UnknownKeyMessage | src/creator.ts:21 | the error text, which quotes the key as given, not its upper case; At states when it is used |
| Creator.At | src/creator.ts:17-28 | a key string succeeds exactly when its upper case is a key of the table, and then binds that key's level and the logger's name; otherwise it fails with the "Unknown FramJetLogger level" message; a level record is bound unchanged |
| Creator.SevereKeysSpellNames | src/level.ts:14-16 | the keys OFF, SEVERE and WARNING spell their names in capitals |
| Creator.MiddleKeysSpellNames | src/level.ts:17-19 | the keys INFO, CONFIG and FINE spell their names in capitals |
| Creator.FineKeysSpellNames | src/level.ts:20-22 | the keys FINER, FINEST and ALL spell their names in capitals |
| Creator.NamesAreSmallKeys | src/level.ts:14-22 | every name upper-cases to its own key |
| Creator.AtOwnName | src/creator.ts:18-24 | each level's own name selects that level |
| Creator.AtIgnoresCase | src/creator.ts:18-24 | a key and its upper case both succeed with the same level, or both fail |
| Creator.SameUpperCase | src/creator.ts:18-24 | two keys with the same upper case select the same level |
| Creator.InfoKeys | src/creator.ts:19 | "info", "Info" and "INFO" all upper-case to "INFO" |
| Creator.InfoInAnyCase | src/creator.ts:18-24 | "info", "Info" and "INFO" all give INFO |
| Creator.SmallWordOffTableFails | src/creator.ts:18-22 | a word of small letters whose capitals start unlike every key fails with the error message |
| Creator.ShortcutNamesAreNotKeys | src/creator.ts:18-22 | "debug" and "trace" are not keys and fail |
| Creator.AtTrace | src/creator.ts:29-31 | atTrace binds ALL and the logger's name |
| Creator.AtDebugLow | src/creator.ts:32-34 | atDebugLow binds FINEST |
| Creator.AtDebug | src/creator.ts:35-37 | atDebug binds FINE |
| Creator.AtInfo | src/creator.ts:38-40 | atInfo binds INFO |
| Creator.AtWarn | src/creator.ts:41-43 | atWarn binds WARNING |
| Creator.AtError | src/creator.ts:44-46 | atError binds SEVERE |
| Creator.ShortcutsAscend | src/creator.ts:29-46 | the shortcuts rise strictly in severity from atTrace to atError, so an enabled atDebug keeps atInfo enabled |
| Creator.TraceLoggerWarns | src/creator.ts:29-31 | an enabled atTrace logger always reaches mapLogLevel's default branch: one warning, then console.log with the content |

## Left out

- `timed` and `formatPerformanceTime` (src/logger.ts:229-270, src/utils.ts:65-71) are not modelled. They read the wall clock and round floating-point numbers.
- `trackExecution` and `trackExecutionFunction` (src/logger.ts:391-448) are not modelled. They are higher-order wrappers around timing, with try/finally and console grouping.
- The console pass-throughs `assert`, `clear`, `dir`, `dirxml`, `table` and `trace` are not modelled. They are host I/O, and each is gated by the same `isEnabled` that `Api.IsEnabled` models.
- `group` and `groupCollapsed` (src/logger.ts:337-376) are not modelled. They have no enabled gate and always call the console.
- Regular expressions are not modelled. A pattern is an opaque id, and its `test` is the uninterpreted `matches` function. This leaves out the `lastIndex` state that `test` keeps on a `/g` regex between calls.
- `JSON.stringify`, `Number(s)` on strings, and `'' + v` on objects, arrays, booleans, `null` and floats are left uninterpreted, as fields of `Format.Host`. Only `undefined`, safe integers, and strings under `s` and `o` are converted explicitly.
- Conversions that throw are not modelled. Examples are `JSON.stringify` of a cyclic value and `'' + v` of an object whose `toString` throws.
- `getSourceFilePath` and `forEnclosingFile` are not modelled. They read `import.meta.url` and parse a URL. Only the split-and-pop step of `getSourceFileName` is modelled, as `Format.LastSegment`. Its `?? 'unknown'` fallback cannot fire, because `pop` on the result of a split always yields a string.
- `getOptions`, `src/index.ts` and `src/global.d.ts` are not modelled. They do global-object bootstrapping and hold type declarations. The store an API reads is passed in explicitly.
- `import.meta.env` is not read. `PROD` and `LOG_LEVEL` are the parameters of `Config.InitialLevel` and of the `LevelStore` constructor.
- The matcher of `setLevel` is a tagged variant `Global | Exact(name) | Pattern(id)`. Because of that, the "Invalid matcher type" throw at src/logger.ts:156 cannot be reached in the model.
- Dispatch.MapLogLevel: compares levels by value, while the JavaScript `switch` compares object identity. A level record built outside the table with the same fields as a table level would reach the default branch in JavaScript, but not in the model.
- Creator.ToUpperCase: models `String.prototype.toUpperCase`, but only for characters whose upper case is ASCII:
  - a–z;
  - ß, ı and ſ;
  - the Latin ligatures U+FB00–U+FB06.

  Every other character is left unchanged. The real upper case of such a character is either the character itself or contains a non-ASCII character. Either way the key lookup fails in both JavaScript and the model, so `at` gives the same result.
- Levels.Get: models `_Level[key]` as a search among the nine own keys. Inherited properties of `Object.prototype` cannot be read this way. Every one of their names contains a letter a–z, and an upper-cased string contains none.
- Level ranks are integers (`Levels.Level.value: int`). In JavaScript a rank is a `number`, and `at(level)` and `setLevel(level, …)` accept any level record, so a user-made rank can be fractional, `NaN` or infinite. The model does not capture these: with a `NaN` rank `isEnabled` is always false, and `Dispatch.UnknownLevelWarning` writes the rank with `Format.Decimal`, which differs from JavaScript's `${value}` for non-integers and for magnitudes of 10^21 or more.
- The format argument of `log` is a string in the model (`Api.Log`, `format: string`). In JavaScript `log` takes `...args: unknown[]`, and an enabled `log()` or `log(obj)` reaches `fmt.replace` on a non-string and throws a TypeError (src/utils.ts:27 or src/utils.ts:60). The model cannot express that input or that throw.
- Format.Decimal: renders integers only. `Num` holds safe integers, so the renderings of `String(n)` for floats and for exponent notation fall to the `Host` conversions of opaque values.
- Api.Count: the counter it returns does not re-check `isEnabled` on `tick` and `reset`, and the model does not either. These calls are modelled as the console calls they make, not as a console counter state.
- Log and count return their console calls as values, in order. The console's own state, such as counters and output, is not modelled.
