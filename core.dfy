/** The extension's decision core as a state machine over values: the play gate
    (enabled flag, cooldown, sound-file check), the three trigger sources, the two
    commands and the status-bar revert. The class `Extension.Session` implements
    each step in place and is proved equal to the functions here. */
module Core {
  import opened Text
  import opened Classifiers
  import opened Diagnostics

  datatype Platform = Win32 | Darwin | OtherPlatform

  /** The external player launched for one play: the cached VBScript through
      cscript on Windows, afplay on macOS, mpg123 elsewhere. */
  datatype Player = Cscript | Afplay | Mpg123

  function PlayerFor(platform: Platform): (player: Player)
    ensures player == Cscript <==> platform == Win32
    ensures player == Afplay <==> platform == Darwin
    ensures player == Mpg123 <==> platform == OtherPlatform
  {
    match platform
    case Win32 => Cscript
    case Darwin => Afplay
    case OtherPlatform => Mpg123
  }

  /** One detached player launch, stamped with the clock reading of the play that
      launched it. */
  datatype Spawn = Spawn(player: Player, at: int)

  /** The lines the extension appends to its output channel. */
  datatype LogLine =
    | ScriptReady              // "VBS ready: <path>"
    | Activated                // "✅ Activated! Sound: <path>"
    | SoundFileExists(present: bool)
    | Watching                 // "Watching for errors and failures..."
    | SoundNotFound            // "❌ File not found: <path>"
    | Playing                  // "💥 Playing!"
    | NewErrors(count: nat)    // "<count> new error(s)"
    | TaskFailed(name: string) // "Task \"<name>\" failed"

  /** Fixed at activation: the host platform and which trigger sources were
      registered (the terminal source also needs the host to offer terminal data). */
  datatype Setup = Setup(platform: Platform, diagnosticsWired: bool, tasksWired: bool, terminalWired: bool)

  function SetupFor(platform: Platform, triggerOnDiagnostics: bool, triggerOnTestFailure: bool,
                    terminalDataAvailable: bool): (setup: Setup)
    ensures setup.platform == platform
    ensures setup.diagnosticsWired == triggerOnDiagnostics
    ensures setup.tasksWired == triggerOnTestFailure
    // the terminal source needs the task source's setting and the host's terminal data
    ensures setup.terminalWired <==> triggerOnTestFailure && terminalDataAvailable
    ensures setup.terminalWired ==> setup.tasksWired
  {
    Setup(platform, triggerOnDiagnostics, triggerOnTestFailure,
          triggerOnTestFailure && terminalDataAvailable)
  }

  /** What a play reads from outside: the clock (`Date.now()`), the configured
      `cooldownMs`, and whether the sound file exists. */
  datatype Context = Context(now: int, cooldownMs: int, soundExists: bool)

  /** The mutable state of a session: the configured `enabled` flag, the time of the
      last play that passed the cooldown, the error total last seen, the status-bar
      text and error background, and the effects recorded so far. */
  datatype State = State(
    enabled: bool,
    lastPlayTime: int,
    previousErrorCount: nat,
    statusText: string,
    alert: bool,
    log: seq<LogLine>,
    launches: seq<Spawn>,
    notices: seq<string>)

  const AlertText: string := "💥 FAHHH!"
  const SpeakerText: string := "🔊 FAHHH"
  const MutedText: string := "🔇 FAHHH"

  /** The idle status-bar glyph the toggle command chooses. */
  function IdleText(enabled: bool): string {
    if enabled then SpeakerText else MutedText
  }

  function ToggleNotice(enabled: bool): string {
    if enabled then "FAHHH enabled 🔊" else "FAHHH disabled 🔇"
  }

  /** The state right after activation. */
  function Initial(setup: Setup, enabled: bool, soundExists: bool): (s: State)
    ensures s.enabled == enabled && s.lastPlayTime == 0 && s.previousErrorCount == 0
    ensures s.statusText == SpeakerText && !s.alert && s.launches == [] && s.notices == []
    // the log holds exactly the activation lines, "VBS ready" first on Windows only
    ensures setup.platform == Win32 ==> s.log == [ScriptReady, Activated, SoundFileExists(soundExists), Watching]
    ensures setup.platform != Win32 ==> s.log == [Activated, SoundFileExists(soundExists), Watching]
  {
    var prepared := if setup.platform == Win32 then [ScriptReady] else [];
    State(enabled, 0, 0, SpeakerText, false,
          prepared + [Activated, SoundFileExists(soundExists), Watching], [], [])
  }

  // ---------------------------------------------------------------- the play gate

  /** A play gets past the enabled flag and the cooldown, and so takes the window. */
  predicate Passes(s: State, ctx: Context) {
    s.enabled && ctx.now - s.lastPlayTime >= ctx.cooldownMs
  }

  /** `playSound`: the enabled check, then the cooldown check and the timestamp
      update, then the sound-file check, then the alert text, the launch and the
      "Playing!" line. */
  function Play(setup: Setup, s: State, ctx: Context): (r: State)
    // a disabled trigger, or one inside the cooldown window, changes nothing
    ensures !Passes(s, ctx) ==> r == s
    // a trigger that passes takes the window even when the sound file is missing
    ensures Passes(s, ctx) ==> r.lastPlayTime == ctx.now
    ensures r.lastPlayTime == s.lastPlayTime || r.lastPlayTime - s.lastPlayTime >= ctx.cooldownMs
    // a missing file yields exactly one "not found" line and nothing else
    ensures Passes(s, ctx) && !ctx.soundExists ==>
      r.log == s.log + [SoundNotFound] && r.launches == s.launches &&
      r.statusText == s.statusText && r.alert == s.alert
    // otherwise one launch, the alert text and exactly one "Playing!" line
    ensures Passes(s, ctx) && ctx.soundExists ==>
      r.log == s.log + [Playing] && r.launches == s.launches + [Spawn(PlayerFor(setup.platform), ctx.now)] &&
      r.statusText == AlertText && r.alert
    ensures r.enabled == s.enabled && r.previousErrorCount == s.previousErrorCount && r.notices == s.notices
    ensures Extends(s, r)
  {
    if !s.enabled then s
    else if ctx.now - s.lastPlayTime < ctx.cooldownMs then s
    else
      var s1 := s.(lastPlayTime := ctx.now);
      if !ctx.soundExists then s1.(log := s1.log + [SoundNotFound])
      else s1.(statusText := AlertText, alert := true,
               launches := s1.launches + [Spawn(PlayerFor(setup.platform), ctx.now)],
               log := s1.log + [Playing])
  }

  // ---------------------------------------------------------- the trigger sources

  /** The diagnostics observer, with `gate` the live `triggerOnDiagnostics` value. */
  function OnDiagnostics(setup: Setup, s: State, gate: bool, perUri: seq<seq<Severity>>, ctx: Context): (r: State)
    // a switched-off observer leaves even the counter alone
    ensures !(setup.diagnosticsWired && gate) ==> r == s
    // otherwise the new total is always stored
    ensures setup.diagnosticsWired && gate ==> r.previousErrorCount == TotalErrors(perUri)
    // it fires, logging the number of new errors first, exactly when the total grew
    ensures setup.diagnosticsWired && gate && TotalErrors(perUri) > s.previousErrorCount ==>
      r.(previousErrorCount := s.previousErrorCount) ==
      Play(setup, s.(log := s.log + [NewErrors(TotalErrors(perUri) - s.previousErrorCount)]), ctx)
    ensures setup.diagnosticsWired && gate && TotalErrors(perUri) <= s.previousErrorCount ==>
      r == s.(previousErrorCount := TotalErrors(perUri))
    ensures Extends(s, r) && r.enabled == s.enabled
  {
    if !setup.diagnosticsWired || !gate then s
    else
      var total := TotalErrors(perUri);
      var s1 := if total > s.previousErrorCount
        then Play(setup, s.(log := s.log + [NewErrors(total - s.previousErrorCount)]), ctx)
        else s;
      s1.(previousErrorCount := total)
  }

  /** The task observer, with `gate` the live `triggerOnTestFailure` value. */
  function OnTaskEnd(setup: Setup, s: State, gate: bool, name: string, exitCode: Option<int>, ctx: Context): (r: State)
    ensures setup.tasksWired && gate && TaskFailure(name, exitCode) ==>
      r == Play(setup, s.(log := s.log + [TaskFailed(name)]), ctx)
    ensures !(setup.tasksWired && gate && TaskFailure(name, exitCode)) ==> r == s
    ensures Extends(s, r) && r.enabled == s.enabled
  {
    if setup.tasksWired && gate && TaskFailure(name, exitCode)
    then Play(setup, s.(log := s.log + [TaskFailed(name)]), ctx)
    else s
  }

  /** The terminal-output observer, with `gate` the live `triggerOnTestFailure` value. */
  function OnTerminalData(setup: Setup, s: State, gate: bool, data: string, ctx: Context): (r: State)
    ensures setup.terminalWired && gate && IsFailureOutput(data) ==> r == Play(setup, s, ctx)
    ensures !(setup.terminalWired && gate && IsFailureOutput(data)) ==> r == s
    ensures Extends(s, r) && r.enabled == s.enabled
  {
    if setup.terminalWired && gate && IsFailureOutput(data) then Play(setup, s, ctx) else s
  }

  // --------------------------------------------------- commands and the revert timer

  /** `fahhh.test`: a play, then the confirmation message whatever the play did. */
  function TestCommand(setup: Setup, s: State, ctx: Context): (r: State)
    ensures r.notices == s.notices + [AlertText]
    ensures r.(notices := s.notices) == Play(setup, s, ctx)
  {
    var s1 := Play(setup, s, ctx);
    s1.(notices := s1.notices + [AlertText])
  }

  /** `fahhh.toggle`: flips `enabled`, shows the idle glyph of the new value and
      announces it; nothing else changes. */
  function Toggle(s: State): (r: State)
    ensures r.enabled == !s.enabled
    ensures r.statusText == IdleText(r.enabled) && r.notices == s.notices + [ToggleNotice(r.enabled)]
    ensures r.(enabled := s.enabled, statusText := s.statusText, notices := s.notices) == s
  {
    var now := !s.enabled;
    s.(enabled := now, statusText := IdleText(now), notices := s.notices + [ToggleNotice(now)])
  }

  /** The callback scheduled 1500 ms after a play: the speaker glyph and no
      background, whatever `enabled` is by then. */
  function Revert(s: State): (r: State)
    ensures r.statusText == SpeakerText && !r.alert
    ensures r.(statusText := s.statusText, alert := s.alert) == s
  {
    s.(statusText := SpeakerText, alert := false)
  }

  // ------------------------------------------------------------------ event runs

  datatype Event =
    | TestCommandRun(ctx: Context)
    | ToggleCommandRun
    | RevertTimerFired
    | DiagnosticsChanged(gate: bool, perUri: seq<seq<Severity>>, ctx: Context)
    | TaskProcessEnded(gate: bool, name: string, exitCode: Option<int>, ctx: Context)
    | TerminalDataWritten(gate: bool, data: string, ctx: Context)

  /** `r` keeps every effect recorded in `s`: log lines, launches and messages are only appended. */
  predicate Extends(s: State, r: State) {
    s.log <= r.log && s.launches <= r.launches && s.notices <= r.notices
  }

  /** One event handled by the handler, command or timer it is addressed to. */
  function Step(setup: Setup, s: State, ev: Event): (r: State)
    ensures Extends(s, r)
    ensures KeepsEnabled(ev) ==> r.enabled == s.enabled
    ensures ev.ToggleCommandRun? ==> r.enabled == !s.enabled
  {
    match ev
    case TestCommandRun(ctx) => TestCommand(setup, s, ctx)
    case ToggleCommandRun => Toggle(s)
    case RevertTimerFired => Revert(s)
    case DiagnosticsChanged(gate, perUri, ctx) => OnDiagnostics(setup, s, gate, perUri, ctx)
    case TaskProcessEnded(gate, name, exitCode, ctx) => OnTaskEnd(setup, s, gate, name, exitCode, ctx)
    case TerminalDataWritten(gate, data, ctx) => OnTerminalData(setup, s, gate, data, ctx)
  }

  /** The events handled one after another, in arrival order. */
  function Run(setup: Setup, s: State, evs: seq<Event>): (r: State)
    ensures Extends(s, r)
    // toggles flip the flag; nothing else touches it
    ensures (forall k :: 0 <= k < |evs| ==> KeepsEnabled(evs[k])) ==> r.enabled == s.enabled
    decreases |evs|
  {
    if evs == [] then s else Run(setup, Step(setup, s, evs[0]), evs[1..])
  }

  /** The event plays under cooldown `c` (the commands and the timer do not play). */
  predicate UsesCooldown(ev: Event, c: int) {
    ev.ToggleCommandRun? || ev.RevertTimerFired? || ev.ctx.cooldownMs == c
  }

  /** Every two launches are at least `c` apart, and no launch is later than the
      recorded last play time. */
  predicate Spaced(s: State, c: int) {
    (forall i, j :: 0 <= i < j < |s.launches| ==> s.launches[j].at - s.launches[i].at >= c) &&
    (forall i :: 0 <= i < |s.launches| ==> s.launches[i].at <= s.lastPlayTime)
  }

  lemma PlayKeepsSpaced(setup: Setup, s: State, ctx: Context, c: int)
    requires c >= 0 && ctx.cooldownMs == c && Spaced(s, c)
    ensures Spaced(Play(setup, s, ctx), c)
  {
    var r := Play(setup, s, ctx);
    if Passes(s, ctx) && ctx.soundExists {
      var n := |s.launches|;
      forall i, j | 0 <= i < j < |r.launches|
        ensures r.launches[j].at - r.launches[i].at >= c
      {
        if j == n {
          assert r.launches[i] == s.launches[i];
        } else {
          assert r.launches[i] == s.launches[i] && r.launches[j] == s.launches[j];
        }
      }
      forall i | 0 <= i < |r.launches|
        ensures r.launches[i].at <= r.lastPlayTime
      {
        if i < n {
          assert r.launches[i] == s.launches[i];
        }
      }
    }
  }

  lemma DiagnosticsKeepSpaced(setup: Setup, s: State, gate: bool, perUri: seq<seq<Severity>>, ctx: Context, c: int)
    requires c >= 0 && ctx.cooldownMs == c && Spaced(s, c)
    ensures Spaced(OnDiagnostics(setup, s, gate, perUri, ctx), c)
  {
    var total := TotalErrors(perUri);
    if setup.diagnosticsWired && gate && total > s.previousErrorCount {
      var logged := s.(log := s.log + [NewErrors(total - s.previousErrorCount)]);
      PlayKeepsSpaced(setup, logged, ctx, c);
    }
  }

  lemma TaskEndKeepsSpaced(setup: Setup, s: State, gate: bool, name: string, exitCode: Option<int>, ctx: Context, c: int)
    requires c >= 0 && ctx.cooldownMs == c && Spaced(s, c)
    ensures Spaced(OnTaskEnd(setup, s, gate, name, exitCode, ctx), c)
  {
    PlayKeepsSpaced(setup, s.(log := s.log + [TaskFailed(name)]), ctx, c);
  }

  lemma TerminalKeepsSpaced(setup: Setup, s: State, gate: bool, data: string, ctx: Context, c: int)
    requires c >= 0 && ctx.cooldownMs == c && Spaced(s, c)
    ensures Spaced(OnTerminalData(setup, s, gate, data, ctx), c)
  {
    PlayKeepsSpaced(setup, s, ctx, c);
  }

  lemma StepKeepsSpaced(setup: Setup, s: State, ev: Event, c: int)
    requires c >= 0 && UsesCooldown(ev, c) && Spaced(s, c)
    ensures Spaced(Step(setup, s, ev), c)
  {
    match ev
    case TestCommandRun(ctx) =>
      PlayKeepsSpaced(setup, s, ctx, c);
    case ToggleCommandRun =>
    case RevertTimerFired =>
    case DiagnosticsChanged(gate, perUri, ctx) =>
      DiagnosticsKeepSpaced(setup, s, gate, perUri, ctx, c);
    case TaskProcessEnded(gate, name, exitCode, ctx) =>
      TaskEndKeepsSpaced(setup, s, gate, name, exitCode, ctx, c);
    case TerminalDataWritten(gate, data, ctx) =>
      TerminalKeepsSpaced(setup, s, gate, data, ctx, c);
  }

  /** The cooldown guarantee: whatever mix of diagnostics, task, terminal, command
      and timer events arrives, with one non-negative cooldown every two launches
      are at least the cooldown apart, starting from activation. */
  lemma {:induction false} LaunchesSpacedByCooldown(setup: Setup, s: State, evs: seq<Event>, c: int)
    requires c >= 0 && Spaced(s, c)
    requires forall k :: 0 <= k < |evs| ==> UsesCooldown(evs[k], c)
    ensures Spaced(Run(setup, s, evs), c)
    decreases |evs|
  {
    if evs != [] {
      StepKeepsSpaced(setup, s, evs[0], c);
      assert forall k :: 0 <= k < |evs| - 1 ==> evs[1..][k] == evs[k + 1];
      LaunchesSpacedByCooldown(setup, Step(setup, s, evs[0]), evs[1..], c);
    }
  }

  lemma ActivationLaunchesSpaced(setup: Setup, enabled: bool, soundExists: bool, evs: seq<Event>, c: int, i: int, j: int)
    requires c >= 0 && forall k :: 0 <= k < |evs| ==> UsesCooldown(evs[k], c)
    requires 0 <= i < j < |Run(setup, Initial(setup, enabled, soundExists), evs).launches|
    ensures var ls := Run(setup, Initial(setup, enabled, soundExists), evs).launches;
      ls[j].at - ls[i].at >= c
  {
    LaunchesSpacedByCooldown(setup, Initial(setup, enabled, soundExists), evs, c);
  }

  /** The event leaves `enabled` alone (only the toggle command flips it). */
  predicate KeepsEnabled(ev: Event) {
    !ev.ToggleCommandRun?
  }

  /** With the master flag off and no toggle, no event of any source launches a
      player or moves the cooldown window. */
  lemma {:induction false} DisabledRunNeverPlays(setup: Setup, s: State, evs: seq<Event>)
    requires !s.enabled
    requires forall k :: 0 <= k < |evs| ==> KeepsEnabled(evs[k])
    ensures Run(setup, s, evs).launches == s.launches
    ensures Run(setup, s, evs).lastPlayTime == s.lastPlayTime
    ensures !Run(setup, s, evs).enabled
    decreases |evs|
  {
    if evs != [] {
      var s1 := Step(setup, s, evs[0]);
      assert s1.launches == s.launches && s1.lastPlayTime == s.lastPlayTime && !s1.enabled;
      assert forall k :: 0 <= k < |evs| - 1 ==> evs[1..][k] == evs[k + 1];
      DisabledRunNeverPlays(setup, s1, evs[1..]);
    }
  }

  /** With the master flag off, the diagnostics and task observers still do all
      their work before the play returns at once: the "new errors" line, the stored
      total and the "task failed" line all appear, and only the launch is missing. */
  lemma DisabledStillLogs(setup: Setup, s: State, perUri: seq<seq<Severity>>,
                          name: string, exitCode: Option<int>, ctx: Context)
    requires !s.enabled
    ensures setup.diagnosticsWired && TotalErrors(perUri) > s.previousErrorCount ==>
      var r := OnDiagnostics(setup, s, true, perUri, ctx);
      r.log == s.log + [NewErrors(TotalErrors(perUri) - s.previousErrorCount)] &&
      r.previousErrorCount == TotalErrors(perUri) && r.launches == s.launches
    ensures setup.tasksWired && TaskFailure(name, exitCode) ==>
      var r := OnTaskEnd(setup, s, true, name, exitCode, ctx);
      r.log == s.log + [TaskFailed(name)] && r.launches == s.launches
  {
  }

  /** A sound file missing at the first passing trigger still takes the window: a
      second trigger inside the cooldown launches nothing. */
  lemma MissingSoundTakesWindow(setup: Setup, s: State, first: Context, second: Context)
    requires Passes(s, first) && !first.soundExists
    requires second.now - first.now < second.cooldownMs
    ensures Play(setup, Play(setup, s, first), second).launches == s.launches
  {
  }

  /** The session starts with `lastPlayTime` 0, so a trigger whose clock reading is
      below the cooldown is suppressed. */
  lemma EarlyTriggerSuppressed(setup: Setup, enabled: bool, soundExists: bool, ctx: Context)
    requires ctx.now < ctx.cooldownMs
    ensures Play(setup, Initial(setup, enabled, soundExists), ctx) == Initial(setup, enabled, soundExists)
  {
  }

  /** Cooldown 2000, sound present: triggers at 10000, 11000 and 12500 play at
      10000 and 12500 only. */
  lemma CooldownScenario(setup: Setup, soundExists: bool)
    ensures var s0 := Initial(setup, true, soundExists);
      var s1 := Play(setup, s0, Context(10000, 2000, true));
      var s2 := Play(setup, s1, Context(11000, 2000, true));
      var s3 := Play(setup, s2, Context(12500, 2000, true));
      s3.launches == [Spawn(PlayerFor(setup.platform), 10000), Spawn(PlayerFor(setup.platform), 12500)]
  {
  }

  predicate AllGatedDiagnostics(setup: Setup, evs: seq<Event>) {
    setup.diagnosticsWired && forall k :: 0 <= k < |evs| ==> evs[k].DiagnosticsChanged? && evs[k].gate
  }

  /** Over a run of diagnostics events with the observer on, the stored total is
      always the last event's total, whether or not that event fired. */
  lemma {:induction false} DiagnosticsRememberLastTotal(setup: Setup, s: State, evs: seq<Event>)
    requires |evs| > 0 && AllGatedDiagnostics(setup, evs)
    ensures Run(setup, s, evs).previousErrorCount == TotalErrors(evs[|evs| - 1].perUri)
    decreases |evs|
  {
    var s1 := Step(setup, s, evs[0]);
    if |evs| > 1 {
      assert forall k :: 0 <= k < |evs| - 1 ==> evs[1..][k] == evs[k + 1];
      DiagnosticsRememberLastTotal(setup, s1, evs[1..]);
    }
  }

  /** A diagnostics event with the observer on logs a "new errors" line exactly
      when the total grew past the stored one, and that line holds the difference. */
  lemma DiagnosticsFireIffGrowth(setup: Setup, s: State, perUri: seq<seq<Severity>>, ctx: Context)
    requires setup.diagnosticsWired
    ensures var r := OnDiagnostics(setup, s, true, perUri, ctx);
      (|r.log| > |s.log| && r.log[|s.log|] == NewErrors(TotalErrors(perUri) - s.previousErrorCount)) <==>
      TotalErrors(perUri) > s.previousErrorCount
  {
    var r := OnDiagnostics(setup, s, true, perUri, ctx);
    var total := TotalErrors(perUri);
    if total > s.previousErrorCount {
      var s0 := s.(log := s.log + [NewErrors(total - s.previousErrorCount)]);
      assert r.log[..|s0.log|] == s0.log;
      assert r.log[|s.log|] == s0.log[|s.log|];
    }
  }

  lemma ExampleTotals(first: seq<seq<Severity>>, second: seq<seq<Severity>>, third: seq<seq<Severity>>)
    requires first == [[Error, Error, Error]] && second == [[Error]] && third == [[Error, Error, Error, Error]]
    ensures TotalErrors(first) == 3 && TotalErrors(second) == 1 && TotalErrors(third) == 4
  {
    assert Flatten(first) == first[0] && Flatten(second) == second[0] && Flatten(third) == third[0];
  }

  /** The stored count is the total of the previous event's resources only, not of
      the workspace: resource A with 3 errors, then resource B with 1 error, then A
      with 4 errors. The second event stays silent and stores 1, although 4 errors
      now exist; the third reports 3 new errors for the one that was added. */
  lemma PerEventTotals(setup: Setup, s: State, ctx: Context,
                       first: seq<seq<Severity>>, second: seq<seq<Severity>>, third: seq<seq<Severity>>)
    requires setup.diagnosticsWired && s.previousErrorCount == 0
    requires first == [[Error, Error, Error]] && second == [[Error]] && third == [[Error, Error, Error, Error]]
    ensures var s1 := OnDiagnostics(setup, s, true, first, ctx);
      var s2 := OnDiagnostics(setup, s1, true, second, ctx);
      var s3 := OnDiagnostics(setup, s2, true, third, ctx);
      |s1.log| > |s.log| && s1.log[|s.log|] == NewErrors(3) &&
      s2 == s1.(previousErrorCount := 1) &&
      |s3.log| > |s2.log| && s3.log[|s2.log|] == NewErrors(3) && s3.previousErrorCount == 4
  {
    ExampleTotals(first, second, third);
    DiagnosticsFireIffGrowth(setup, s, first, ctx);
    var s1 := OnDiagnostics(setup, s, true, first, ctx);
    var s2 := OnDiagnostics(setup, s1, true, second, ctx);
    DiagnosticsFireIffGrowth(setup, s2, third, ctx);
  }

  /** Toggling twice restores the flag and shows its idle glyph; the cooldown window
      is untouched. */
  lemma ToggleTwice(s: State)
    ensures Toggle(Toggle(s)).enabled == s.enabled
    ensures Toggle(Toggle(s)).statusText == IdleText(s.enabled)
    ensures Toggle(Toggle(s)).lastPlayTime == s.lastPlayTime
  {
  }
}
