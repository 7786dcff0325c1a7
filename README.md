# FAHHH! error sound — a verified model of its decision core

The FAHHH! editor extension plays a short sound when something goes wrong in the
editor: the Error count summed over the resources of a diagnostics-changed event
exceeds the count stored from the previous event, a test-like task exits with a
non-zero code, or terminal output contains a failure signature. All three sources
go through one play routine, `playSound`. It checks the `enabled` setting, then a
cooldown against `lastPlayTime`, then whether the sound file exists. Only then
does it show an alert in the status bar, launch a detached player process and log
"Playing!".

This project models that decision logic in Dafny. Configuration values, the clock,
the sound-file check, task names and exit codes, and terminal text are all explicit
inputs. Player launches, log lines and information messages are recorded effects.

- `text.dfy` (module `Text`): ASCII lower-casing (`toLowerCase`), given character
  by character, and substring search (`includes`), proved equal to the positional
  definition of an occurrence.
- `classifiers.dfy` (module `Classifiers`): the test-task classifier and the
  terminal failure-signature matcher.
- `diagnostics.dfy` (module `Diagnostics`): counting Error-severity diagnostics
  over the resources of a diagnostics-changed event.
- `core.dfy` (module `Core`): the session as a state machine over values. It has
  one function per handler, command and timer callback, and `Run` over any
  sequence of events. Lemmas prove the cooldown guarantee across all sources, the
  disabled-flag guarantee and the diagnostics counter behaviour.
- `session.dfy` (module `Extension`): class `Session` keeps the state as mutable
  fields, as the source keeps its module-level and closure variables. Each method
  updates those fields step by step, in the source's order. Each method is proved
  to reach the state that the matching `Core` function gives. The diagnostics
  handler keeps the source's accumulating loop, with its invariant, in
  `Diagnostics.SumErrors`.

Inputs and where they come from:
- `Context(now, cooldownMs, soundExists)` stands for, in order, `Date.now()`, the
  `cooldownMs` setting and `fs.existsSync(soundPath)`.
- The `gate` parameter of each handler is the live `triggerOnDiagnostics` or
  `triggerOnTestFailure` value read inside the handler.
- `Setup` records what activation decided: the platform, and which sources were
  registered from the settings and from whether the host offers terminal data.
- `fahhh.enabled` is the session field `enabled`. The toggle command is the only
  thing that changes it.

Behaviour of the code worth knowing, each proved in the model:
- `lastPlayTime` starts at 0, so a first trigger plays only when the clock reads
  at least the cooldown: one whose clock reading is below the cooldown is
  suppressed, even the first of the session (`Core.EarlyTriggerSuppressed`). For
  example, under cooldown 2000 a first trigger at 10000 plays
  (`Core.CooldownScenario`).
- Turning `enabled` off silences the sound, not the observers. `playSound` returns
  at its first check, but the diagnostics handler has already logged "n new
  error(s)" and still stores the total, and the task handler has already logged
  that the task failed. Only the launch, the alert and the timestamp are missing
  (`Core.DisabledStillLogs`, `Core.DisabledRunNeverPlays`).
- The diagnostics counter is updated only while the live `triggerOnDiagnostics`
  gate is on. When the gate is off, the handler returns before summing, so the
  counter stays unchanged (`Core.OnDiagnostics`).
- The stored count is the total over the resources of the last event only, not
  over the workspace. With resource A at 3 errors, then B at 1, then A at 4, the
  second event is silent and stores 1 although 4 errors exist, and the third
  reports 3 new errors for the single one added (`Core.PerEventTotals`).
- The idle status glyph is not kept in step with `enabled`:
  - activation and the revert timer always show the speaker glyph;
  - only the toggle command shows the muted one.
  `Extension.RevertAfterDisableShowsSpeaker` shows a play, a toggle to disabled,
  and then the revert showing the speaker glyph.

## Model

| member | source | states |
|---|---|---|
| Text.LowerChar | src/extension.ts:191 | an ASCII upper-case letter becomes its lower-case form (code point + 32); every other character is kept; no upper-case letter remains |
| Text.Lower | src/extension.ts:235 | `toLowerCase` keeps the length, lower-cases each ASCII letter and leaves no upper-case letter |
| Text.Contains | src/extension.ts:193-200 | `includes(p)` holds exactly when `p` occurs at some index of the text (both directions) |
| Text.ContainsTransitive | src/extension.ts:196-200 | a text containing a word also contains every substring of that word |
| Text.ContainsAny | src/extension.ts:236 | `patterns.some(p => text.includes(p))` holds exactly when some pattern of the list is contained in the text |
| Classifiers.IsTestTask | src/extension.ts:191-200 | a task is test-like exactly when some window of its name lower-cases to one of the eight test words |
| Classifiers.TaskFailure | src/extension.ts:202 | an ended task triggers exactly when it is test-like and its exit code is defined and non-zero |
| Classifiers.TestVocabularyReduces | src/extension.ts:191-200 | a task is test-like iff its lower-cased name contains "test", "jest", "mocha" or "spec"; the other four words all contain "test" |
| Classifiers.TestTaskIgnoresCase | src/extension.ts:191 | two names equal up to ASCII case are classified alike |
| Classifiers.IntegrationTestSuiteTriggers | src/extension.ts:191-202 | "Integration-Test-Suite" exiting with code 1 triggers: its window "Test" lower-cases to "test" |
| Classifiers.BuildNeverTriggers | src/extension.ts:191-202 | "Build" never triggers, whatever the exit code |
| Classifiers.SuccessNeverTriggers | src/extension.ts:202 | exit code 0, or no exit code, never triggers, whatever the name |
| Classifiers.IsFailureOutput | src/extension.ts:219-236 | a chunk matches exactly when some window of it lower-cases to one of the nine signatures |
| Classifiers.FailureOutputExtends | src/extension.ts:235-236 | text before and after a matching chunk does not stop it matching |
| Text.MissingCharNoMatch | src/extension.ts:236 | a text lacking some character of a pattern does not contain the pattern |
| Text.ContainsAnyLowerIffWindow | src/extension.ts:235-236 | lower-casing a text, then matching a pattern list, is the same as some window of the text lower-casing to a pattern |
| Classifiers.NoFailureWithoutTOrColon | src/extension.ts:219-236 | a chunk with no 't', 'T' or ':' never matches, because every signature holds a 't' or a ':' |
| Classifiers.PanicMatches | src/extension.ts:227-236 | "PANIC: runtime error" matches ("panic:" after lower-casing) |
| Classifiers.BuildSucceededDoesNotMatch | src/extension.ts:219-236 | "Build succeeded" matches no signature |
| Diagnostics.ErrorCount | src/extension.ts:166-170 | the filtered length is the number of Error entries among the resource's diagnostics, at most their count |
| Diagnostics.TotalErrors | src/extension.ts:164-171 | the loop's total is the number of Error diagnostics across all resources of the event, in multiset terms |
| Diagnostics.TotalErrorsAppend | src/extension.ts:164-171 | the total over two groups of resources is the sum of their totals |
| Diagnostics.SumErrors | src/extension.ts:164-171 | the handler's accumulating `for` loop (invariant: the total of the resources seen so far) returns the number of Error diagnostics across all resources |
| Diagnostics.NoErrorsIffZero | src/extension.ts:164-171 | the total is 0 exactly when no resource of the event has an Error diagnostic |
| Core.SetupFor | src/extension.ts:156-218 | the platform is kept; the diagnostics source is registered iff `triggerOnDiagnostics`, the task source iff `triggerOnTestFailure`, and the terminal source iff `triggerOnTestFailure` and the host offers terminal data (so only with the task source) |
| Core.Initial | src/extension.ts:96-244 | after a successful activation: last play time and error counter 0, speaker glyph, no alert, no launch, no message; the log is exactly "VBS ready" (Windows only), then the activation, file-exists and watching lines |
| Core.PlayerFor | src/extension.ts:61-77 | each platform has its own player: cscript exactly on Windows, afplay exactly on macOS, mpg123 exactly elsewhere |
| Core.Play | src/extension.ts:34-94 | disabled, or `now - lastPlayTime < cooldown`: nothing changes; otherwise `lastPlayTime := now`; then a missing file gives one "not found" line only; a present one gives one launch, the alert text and background and one "Playing!" line; enabled, counter and messages untouched |
| Core.OnDiagnostics | src/extension.ts:160-179 | the gate off (at registration or live): nothing changes; otherwise the counter becomes the new total; when the total grew, the difference is logged and a play follows |
| Core.OnTaskEnd | src/extension.ts:187-207 | plays, after logging the task's original name, iff registered, the live gate is on, the task is test-like and its exit code is defined and non-zero; otherwise nothing changes |
| Core.OnTerminalData | src/extension.ts:232-239 | plays iff registered, the live gate is on and the chunk matches a signature; otherwise nothing changes |
| Core.TestCommand | src/extension.ts:135-138 | a play, then the "💥 FAHHH!" message whether or not anything played |
| Core.Toggle | src/extension.ts:142-149 | `enabled` flips; the status shows 🔊 when the new value is true and 🔇 when false; one message announces the new value; nothing else changes |
| Core.Revert | src/extension.ts:54-57 | the speaker glyph and no background; nothing else changes |
| Core.Step | src/extension.ts:135-239 | an event is handled by the handler, command or timer it targets; effects (log, launches, messages) are only appended; only the toggle changes `enabled`, and it flips it |
| Core.Run | src/extension.ts:135-239 | handling events in arrival order only appends effects, and without a toggle leaves `enabled` as it was |
| Core.PlayKeepsSpaced | src/extension.ts:39-42 | a play under a fixed non-negative cooldown keeps every two launches at least the cooldown apart and none later than `lastPlayTime` |
| Core.StepKeepsSpaced | src/extension.ts:39-42 | every kind of event keeps the launches spaced |
| Core.LaunchesSpacedByCooldown | src/extension.ts:39-42 | over any run of events of all sources with one non-negative cooldown, every two launches are at least the cooldown apart |
| Core.ActivationLaunchesSpaced | src/extension.ts:10-42 | from activation, any two launches i < j of any run satisfy `at[j] - at[i] >= cooldown` |
| Core.DisabledStillLogs | src/extension.ts:173-205 | with `enabled` off, a growing diagnostics total still logs the difference and is stored, and a failed test task still logs its name; neither launches a player |
| Core.DisabledRunNeverPlays | src/extension.ts:35-36 | with `enabled` off and no toggle, no event of any source launches a player or moves `lastPlayTime` |
| Core.MissingSoundTakesWindow | src/extension.ts:41-47 | a passing trigger that finds no sound file still takes the cooldown window, so a second trigger inside it launches nothing |
| Core.EarlyTriggerSuppressed | src/extension.ts:10-41 | from activation, a trigger whose clock reading is below the cooldown changes nothing |
| Core.CooldownScenario | src/extension.ts:39-93 | cooldown 2000: triggers at 10000, 11000 and 12500 launch at 10000 and 12500 only |
| Core.DiagnosticsRememberLastTotal | src/extension.ts:173-179 | over a run of gated diagnostics events, the stored count is the last event's total, whether or not it fired |
| Core.PerEventTotals | src/extension.ts:162-179 | events {A: 3 errors}, {B: 1 error}, {A: 4 errors}: the first reports 3 new errors, the second is silent and stores 1, the third reports 3 new errors and stores 4 |
| Core.DiagnosticsFireIffGrowth | src/extension.ts:173-177 | a gated diagnostics event logs "n new error(s)", with n the difference, exactly when the total exceeds the stored count |
| Core.ToggleTwice | src/extension.ts:142-146 | two toggles restore the flag, show its idle glyph and leave `lastPlayTime` alone |
| Extension.Session.constructor | src/extension.ts:96-244 | a new session has the activation settings' wiring and the state `Core.Initial` gives |
| Extension.Session.PlaySound | src/extension.ts:34-94 | the in-place play leaves the session in `Core.Play`'s state; a disabled or cooling-down trigger changes no field |
| Extension.Session.RevertStatus | src/extension.ts:54-57 | the timer callback leaves the session in `Core.Revert`'s state |
| Extension.Session.RunTestCommand | src/extension.ts:135-138 | the test command leaves the session in `Core.TestCommand`'s state |
| Extension.Session.RunToggleCommand | src/extension.ts:142-149 | the toggle leaves the session in `Core.Toggle`'s state; last play time, counter, log, launches and background are unchanged |
| Extension.Session.OnDidChangeDiagnostics | src/extension.ts:160-180 | summing (`Diagnostics.SumErrors`), comparing and storing leave the session in the state `Core.OnDiagnostics` gives |
| Extension.Session.OnDidEndTaskProcess | src/extension.ts:187-208 | the handler leaves the session in `Core.OnTaskEnd`'s state |
| Extension.Session.OnDidWriteTerminalData | src/extension.ts:232-239 | the handler leaves the session in `Core.OnTerminalData`'s state |
| Extension.RevertAfterDisableShowsSpeaker | src/extension.ts:54-57 | after a play, a toggle to disabled and the revert, the flag is off and the status shows the speaker glyph |

## Left out

- Process launching (`spawn` of cscript, afplay, mpg123 or ffplay, their arguments, and `unref`) is reduced to one recorded `Spawn(player, at)` per play. The player depends only on the platform. The ffplay fallback when mpg123 fails to spawn is not modelled, because it depends on an OS process error event.
- The afplay volume argument is not modelled, because it is a floating-point configuration value passed to the OS.
- The Windows helper script (`prepareVbs`: the floor of volume × 100 and the file write) is not modelled. The model keeps only its "VBS ready" log line on Windows. It is floating-point work plus file I/O.
- The 1500 ms revert timer is the event `RevertTimerFired`, which may arrive at any point in a run. The model does not tie it to 1500 ms after a play, because it is asynchronous scheduling. The cooldown and disabled guarantees hold for every placement of the event.
- File-system calls (`existsSync`, `mkdirSync`, `writeFileSync`) and the sound and script paths are left out. File existence is an input. Log lines do not carry paths.
- VS Code plumbing is left out: configuration reads, status-bar creation, tooltip and command binding, subscriptions, the output channel object, and the capability probe for terminal data. These become parameters (`gate`, `Setup`) or recorded effects (`log`, `notices`). `config.update` becomes the `enabled` field. The toggle writes the global setting, so a workspace or folder value of `fahhh.enabled` would override it and the announced flip would not take effect; the model always flips. Edits to `enabled` from anywhere other than the toggle command are not modelled.
- `config.update` in the toggle command is asynchronous, and a trigger arriving before it settles would still read the old value. The model applies the new value at once, because it does not model settlement order.
- Activation's failure paths are not modelled: when creating the global-storage folder (`mkdirSync`, which holds the helper script) or, on Windows, writing the helper script (`prepareVbs`) throws, activation stops before any status item, command or trigger source is registered.
- `deactivate` is not modelled. It only appends a log line after the session ends.
- Text.Lower: lower-cases ASCII letters only, not the full Unicode mapping of `toLowerCase`. The same goes for every classifier built on it.
- Core.Play: `cooldownMs` and the clock are whole numbers of milliseconds. A fractional `cooldownMs` setting is not modelled.
- Core.LaunchesSpacedByCooldown: assumes one non-negative cooldown for the whole run. With a negative or changing cooldown, the per-play guarantee still holds (`Core.Play`: `lastPlayTime` moves by at least the cooldown), but it does not add up across plays.
