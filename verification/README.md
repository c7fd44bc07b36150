# MCP command line, modelled in Dafny

This project models the command-line core of the MCP dashboard, in five parts.

- **The enhanced interpreter** (`processEnhancedCommand` with its handlers, the static command registry and `generateSuggestions`). A line is lower-cased, trimmed and cut at every single space. `macro` goes to the macro handler first. Any other first word is looked up by name or alias, and the entry's category picks the handler. The handler then chooses a canned response from the later words.
- **The keyword interpreter** (`processCommand`). This is the interpreter the console calls. It checks keyword groups in a fixed priority order anywhere in the normalised line.
- **The command console**. A state machine over the input line, the response log, the command log and the history position. Its events are typing, Enter, ArrowUp, ArrowDown, other keys and the clear button. The notification decision is modelled too.
- **The allocation bar's `getColor`** and **the security component's `getStatusInfo`**. Each is reduced to the band it picks.

The JavaScript string built-ins the core relies on are written out in `text.dfy`. These are `toLowerCase`, `trim`, `split(' ')`, `startsWith`, `includes`, `parseInt(s, 10)` and number-to-string. Each comes with its defining property, such as the split/join round trip or parse after print.

Modules, one per file:

- `Options`
- `Text`
- `Responses`: `CommandResponse`, with the free-form `data` narrowed to one tagged variant per canned payload.
- `Registry`
- `Suggestions`
- `Keywords`
- `Interpreter`
- `Console`
- `Severity`

Two source behaviours are modelled as written and proved, not corrected:

- The aliases `script`, `automate` and `batch` resolve to the Automation entry. The dispatch has no case for that entry, so these aliases get the not-recognised answer.
- Clearing the console empties only the response log. After a clear, responses are shown under the wrong commands.

## Model

| member | source | states |
|---|---|---|
| Text.Trim | src/utils/mcpCommands.ts:12 | `trim` removes exactly the longest leading and trailing runs of ECMAScript whitespace and line terminators; the result is empty iff the line is all whitespace |
| Text.TrimCharacterised | src/utils/mcpCommands.ts:12 | any split of a line into whitespace, a core that starts and ends with non-whitespace, and whitespace has that core as its trim |
| Text.LowerTrimCommute | src/utils/mcpCommands.ts:12 | lower-casing and trimming commute, so `toLowerCase().trim()` can be read either way round |
| Text.Lower | src/utils/mcpCommands.ts:12 | `toLowerCase` keeps the length and maps each character on its own: ASCII capitals to their small letters, everything else unchanged |
| Text.TrimIgnoresPadding | src/utils/mcpCommands.ts:12 | whitespace added around a line does not change its trim |
| Text.TrimIdempotent | src/utils/masterPromptingSystem.ts:96 | trimming a trimmed line changes nothing |
| Text.NormaliseIdempotent | src/utils/masterPromptingSystem.ts:96 | normalising an already normalised line changes nothing, so the suggestion generator's second `toLowerCase().trim()` of the lowered command is harmless |
| Text.Split | src/utils/masterPromptingSystem.ts:141 | `split(' ')` gives at least one part, no part holds a space, joining the parts with single spaces gives the line back, and there is exactly one part iff the line has no space |
| Text.SplitJoin | src/utils/masterPromptingSystem.ts:141 | splitting the single-space join of space-free parts gives those parts back (a double space yields an empty part) |
| Text.ContainsAt | src/utils/mcpCommands.ts:15 | `includes` holds iff the word occurs at some position of the line |
| Text.ParseInt | src/utils/masterPromptingSystem.ts:315 | `parseInt(s, 10)` is NaN iff no digit follows the leading whitespace and the optional sign, and a negative result needs a leading minus |
| Text.ParseIntReadsIntToString | src/utils/masterPromptingSystem.ts:315 | `parseInt` reads the decimal text of any integer back as that integer, whatever non-digit text follows it |
| Text.ParseIntRoundTrip | src/utils/masterPromptingSystem.ts:315-319 | parsing the decimal text of any integer gives that integer back |
| Text.ParseIntReadsSignedDigits | src/utils/masterPromptingSystem.ts:315 | after any leading whitespace, `parseInt` reads a digit run followed by a non-digit as its value, the same after a `+`, and negated after a `-` |
| Text.LeadingZeroIgnored | src/utils/masterPromptingSystem.ts:315 | a leading zero does not change the value of a digit run, so `050` reads as 50 |
| Text.IntToString | src/utils/masterPromptingSystem.ts:319 | the decimal text of a number is non-empty and starts with a minus iff the number is negative |
| Registry.FindFrom | src/utils/masterPromptingSystem.ts:150-152 | `find` gives the first entry the token names or aliases, and none iff no entry does |
| Registry.EntryTokens | src/utils/masterPromptingSystem.ts:26-75 | the names and aliases of each of the six registry entries, spelled out |
| Registry.Lookup | src/utils/masterPromptingSystem.ts:150-152 | the lookup gives an entry the token names or aliases, and nothing iff no entry does |
| Registry.TokenOwnerUnique | src/utils/masterPromptingSystem.ts:26-75 | no two registry entries share a name or alias |
| Registry.TokenWellFormed | src/utils/masterPromptingSystem.ts:26-75 | every name and alias is non-empty, lower case and free of spaces |
| Registry.LookupFindsOwner | src/utils/masterPromptingSystem.ts:150-152 | every name and alias resolves to its own entry, so the lookup is unambiguous |
| Registry.CategoriesPartitionNames | src/utils/masterPromptingSystem.ts:462-469 | the six category filters together hold every registry name exactly as often as the registry does |
| Suggestions.CompletionPositions | src/utils/masterPromptingSystem.ts:106-111 | the completing entries are all of those whose name or some alias starts with the key, each once, in registry order |
| Suggestions.Suggest | src/utils/masterPromptingSystem.ts:92-133 | for a blank line: the last history command, else `status`, `help`; for one word: the names of the completing entries; for a line with a space: the fixed follow-up list of `status`/`health`, `network` or `security`, else nothing |
| Suggestions.SpacedKeyCompletesNothing | src/utils/masterPromptingSystem.ts:106-132 | a key with a space completes no entry, so such a line offers only the fixed follow-ups |
| Suggestions.CompletionsAreMatchingNames | src/utils/masterPromptingSystem.ts:106-111 | a name is offered iff its entry's name or an alias extends the key, and no name is offered twice |
| Suggestions.NonBlankIgnoresHistory | src/utils/masterPromptingSystem.ts:99-132 | only a blank line consults the history |
| Keywords.Process | src/utils/mcpCommands.ts:11-82 | `status`/`health` anywhere wins over everything; each later group (`allocate`/`resource`, `security`/`threat`, `network`/`connect`) answers iff all earlier groups are absent; help needs the whole line; the rest is the not-recognised warning; never an error |
| Keywords.ProcessSeesOnlyNormalForm | src/utils/mcpCommands.ts:11-82 | apart from the echo in the not-recognised message, the answer depends only on the lower-cased trimmed line |
| Keywords.HelpOnlyForTheBareWord | src/utils/mcpCommands.ts:70-75 | the help text answers a line iff its normal form is `help` or `?` |
| Keywords.HelpMeIsNotHelp | src/utils/mcpCommands.ts:70-81 | `help me` gets the not-recognised answer, echoing the line |
| Keywords.NotRecognised | src/utils/mcpCommands.ts:77-81 | the fallback answer is a warning without data whose message starts by echoing the line exactly as given |
| Interpreter.NotRecognised | src/utils/masterPromptingSystem.ts:170-180 | the unknown-command answer is a warning echoing the original line, whose suggestion block is absent iff the suggestion generator offers nothing |
| Interpreter.Route | src/utils/masterPromptingSystem.ts:144-168 | a handler answers iff the first word is `macro` or names or aliases an entry whose category is not Automation, and no handler answers with an error or an unknown-command payload |
| Interpreter.Handler | src/utils/masterPromptingSystem.ts:155-167 | the category switch has a handler for every category except Automation, and no handler answers with an error or an unknown-command payload |
| Interpreter.Process | src/utils/masterPromptingSystem.ts:136-181 | the enhanced interpreter never answers with an error |
| Interpreter.Words | src/utils/masterPromptingSystem.ts:140-141 | a line always has at least one word, possibly empty |
| Interpreter.ProcessFollowsRoute | src/utils/masterPromptingSystem.ts:140-180 | a line gets its handler's answer when a handler takes its words, and the not-recognised answer otherwise |
| Interpreter.HandlersIgnoreFirstWord | src/utils/masterPromptingSystem.ts:253-473 | every category handler reads only the words after the first |
| Interpreter.WordsIgnoreCaseAndPadding | src/utils/masterPromptingSystem.ts:140-141 | letter case and surrounding whitespace do not change the words of a line |
| Interpreter.SpellingsOfACommandAgree | src/utils/masterPromptingSystem.ts:140-167 | for a System, Resource, Security, Network or Help entry, starting the line with its name or any alias gives the same answer, whatever the history |
| Interpreter.RouteOfHandledEntry | src/utils/masterPromptingSystem.ts:149-167 | words starting with a name or alias go to that entry's category handler, or to no handler for the Automation aliases |
| Interpreter.MacroComesFirst | src/utils/masterPromptingSystem.ts:144-147 | `macro` is handled by the macro handler before any lookup, whatever the history |
| Interpreter.MacroVerbs | src/utils/masterPromptingSystem.ts:184-250 | `record` is info with `parts[2]` or `unnamed_macro`; `stop` is success; `run` without a name is a warning and with one reports 3 commands; `list` is info; anything else is a warning |
| Interpreter.MacroCommand | src/utils/masterPromptingSystem.ts:184-250 | the macro handler never answers with an error or the unknown-command payload |
| Interpreter.SystemCommand | src/utils/masterPromptingSystem.ts:253-310 | the system handler never answers with an error or the unknown-command payload |
| Interpreter.SystemAnswers | src/utils/masterPromptingSystem.ts:253-309 | `status network` is success with the network report, `status security` is info with the security report, `status resources` is success with the resource levels, and any other or missing second word gets the overall status answer |
| Interpreter.ResourceCommand | src/utils/masterPromptingSystem.ts:313-339 | the allocation handler never answers with an error or the unknown-command payload |
| Interpreter.SecurityCommand | src/utils/masterPromptingSystem.ts:342-385 | the security handler never answers with an error or the unknown-command payload |
| Interpreter.SecurityAnswers | src/utils/masterPromptingSystem.ts:342-384 | `security scan` is success with a scan of no vulnerabilities, `security threat-level` is info with the three threat factors, and any other or missing second word gets the security overview |
| Interpreter.NetworkCommand | src/utils/masterPromptingSystem.ts:388-425 | the network handler never answers with an error or the unknown-command payload |
| Interpreter.NetworkAnswers | src/utils/masterPromptingSystem.ts:388-424 | `network optimize` is success with the optimisation report, `network diagram` is info with the topology view, and any other or missing second word gets the mapped-topology answer |
| Interpreter.HelpCommand | src/utils/masterPromptingSystem.ts:428-473 | the help handler never answers with an error or the unknown-command payload |
| Interpreter.AutomationAliasesFallThrough | src/utils/masterPromptingSystem.ts:145-180 | `script`, `automate` and `batch` get the not-recognised answer |
| Interpreter.UnrecognisedExactlyWhenUnhandled | src/utils/masterPromptingSystem.ts:144-180 | the answer carries the unknown-command payload iff no handler takes the first word |
| Interpreter.AllocationReportsParsedAmount | src/utils/masterPromptingSystem.ts:313-339 | with a resource and an amount, `allocate` reports `parseInt` of the amount, NaN included; without either it gives the default optimisation answer |
| Interpreter.AllocationAmountRoundTrip | src/utils/masterPromptingSystem.ts:315-319 | an amount written as the canonical decimal text of an integer (optional minus, no plus sign, no leading zeros) is reported as that integer; other spellings are covered by Text.ParseIntReadsSignedDigits |
| Interpreter.AllocationOfWordIsNaN | src/utils/masterPromptingSystem.ts:315-319 | an amount that starts with a letter is reported as NaN |
| Interpreter.HelpResolvesTopics | src/utils/masterPromptingSystem.ts:428-450 | `help <t>` for a name or alias is info naming the entry's canonical name |
| Interpreter.HelpRejectsUnknownTopics | src/utils/masterPromptingSystem.ts:431-456 | `help <t>` for anything else is a warning naming `t` |
| Interpreter.HelpListsEveryCommandOnce | src/utils/masterPromptingSystem.ts:458-472 | bare `help` lists every command in exactly one category group |
| Console.Notify | src/components/CommandConsole.tsx:45-51 | a notice is raised iff the status is error or warning, carries the message, and is destructive iff the status is error |
| Console.Submit | src/components/CommandConsole.tsx:34-56 | a blank line changes nothing; otherwise the trimmed line and the keyword interpreter's answer to it are appended, the input is emptied and navigation ends |
| Console.Up | src/components/CommandConsole.tsx:61-68 | ArrowUp moves one entry back and loads it, and is a no-op at the oldest entry; the logs are untouched |
| Console.Down | src/components/CommandConsole.tsx:69-79 | ArrowDown moves one entry forward and loads it; from the newest it ends navigation with an empty line; when not navigating it is a no-op |
| Console.UpsClimb | src/components/CommandConsole.tsx:61-68 | `k` ArrowUps climb `k` entries back, stopping at the oldest command |
| Console.DownsDescend | src/components/CommandConsole.tsx:69-79 | `k` ArrowDowns from a navigating position come back `k` entries, and past the newest one navigation has ended with an empty line |
| Console.Clear | src/components/CommandConsole.tsx:83-89 | clearing empties the response log and nothing else, with a non-destructive notice |
| Console.Run | src/components/CommandConsole.tsx:58-89 | every event sequence keeps the history position between -1 and one less than the number of logged commands |
| Console.InitialValid | src/components/CommandConsole.tsx:12-15 | the mounted console is outside navigation with both logs empty, so it is valid and its logs are in step |
| Console.Step | src/components/CommandConsole.tsx:58-81 | every event keeps the history position valid, and a key other than Enter and the arrows changes nothing |
| Console.UpsThenDownsReturn | src/components/CommandConsole.tsx:64-79 | from outside navigation, `k` ArrowUps then `k` ArrowDowns end outside navigation with an empty line |
| Console.StepKeepsLogsInStep | src/components/CommandConsole.tsx:37-42 | every event except the clear button keeps each logged response equal to the answer to the command at its position |
| Console.RunWithoutClearKeepsLogsInStep | src/components/CommandConsole.tsx:34-81 | a session without the clear button keeps the two logs in step throughout |
| Console.ClearBreaksLogs | src/components/CommandConsole.tsx:83-89 | clearing with a command logged leaves the response log shorter than the command log |
| Console.ShownInStepPairsAnswers | src/components/CommandConsole.tsx:119-123 | while the logs are in step, every response is shown under the command it answers |
| Console.ClearThenSubmitShowsOldestCommand | src/components/CommandConsole.tsx:119-123 | after a clear, the next response is shown under the oldest logged command instead of the one it answers |
| Severity.ColorFor | src/components/ResourceMonitor.tsx:50-54 | 80 and above is danger, from 60 up to 80 is the warning band, below 60 is success |
| Severity.ColorMonotone | src/components/ResourceMonitor.tsx:50-54 | a larger value never gets a calmer band |
| Severity.StatusBand | src/components/SecurityStatus.tsx:121-154 | `breach`, `danger` and `detected` are danger, exactly; `warning` and `attention` are the warning band, exactly; the success words and every other status are success |
| Severity.StatusIgnoresCase | src/components/SecurityStatus.tsx:122 | two statuses equal up to letter case get the same band, which is the band of the lower-cased status |

Band names: `Calm`, `Caution` and `Danger` stand for the source's success, warning and danger colours. They are renamed so they do not clash with the response statuses.

## Left out

- Non-ASCII letter case: `toLowerCase` is modelled for ASCII letters only. Full Unicode case mapping, including mappings that change the length of a string, is not modelled.
- Strings are sequences of characters. UTF-16 surrogate pairs are not modelled.
- Text.ParseInt: reads an unbounded integer. It does not model the precision loss of JavaScript numbers above 2^53, or exponent notation when the number is printed at 1e21 and beyond.
- Timestamps (`new Date().toISOString()` in the resource, security and network payloads) and the `timestamp` of history items are dropped, because they come from the clock.
- The `efficiency: 92.7` float in the default allocation payload is represented by the payload's tag alone.
- Response payloads are simplified to one tagged variant per canned payload instead of free-form objects.
- Severity.ColorFor: takes a real. JavaScript's NaN is not modelled; for NaN the source would fall to success, since every comparison with it is false.
- Console: JSX rendering, styling, focus and scrolling effects are left out. So are the toast call itself (only the notice value that decides it is modelled) and `preventDefault`.
- Console.Up and Console.Down: require the history position to be valid. Every state reached from the mounted state satisfies this (Console.Run). Outside it the source would read past the command log.
- Macro recording and playback state: the macro handler keeps none, so it is modelled as canned responses.
- The random mock-data generators in `mcpCommands.ts`, the random security-status reducer and its interval timer, the network graph's canvas drawing, the suggestions component, the help panel, the status display and the dashboard layout are all left out. They are presentation, randomness or floating-point drawing.
