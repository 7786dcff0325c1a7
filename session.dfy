/** The extension's session as the source keeps it: module-level variables and
    closure variables that each event handler updates in place. Every method is
    proved to leave the session in the state the matching `Core` function gives. */
module Extension {
  import opened Classifiers
  import opened Diagnostics
  import opened Core

  class Session {
    const setup: Setup
    var enabled: bool
    var lastPlayTime: int
    var previousErrorCount: nat
    var statusText: string
    var alert: bool
    var log: seq<LogLine>
    var launches: seq<Spawn>
    var notices: seq<string>

    function Snapshot(): State
      reads this
    {
      State(enabled, lastPlayTime, previousErrorCount, statusText, alert, log, launches, notices)
    }

    /** `activate`: the configuration read at activation decides which sources are
        registered; the started session has never played. */
    constructor (platform: Platform, enabledSetting: bool, triggerOnDiagnostics: bool,
                 triggerOnTestFailure: bool, terminalDataAvailable: bool, soundExists: bool)
      ensures setup == SetupFor(platform, triggerOnDiagnostics, triggerOnTestFailure, terminalDataAvailable)
      ensures Snapshot() == Initial(setup, enabledSetting, soundExists)
    {
      setup := SetupFor(platform, triggerOnDiagnostics, triggerOnTestFailure, terminalDataAvailable);
      enabled := enabledSetting;
      lastPlayTime := 0;
      previousErrorCount := 0;
      statusText := SpeakerText;
      alert := false;
      var prepared := if platform == Win32 then [ScriptReady] else [];
      log := prepared + [Activated, SoundFileExists(soundExists), Watching];
      launches := [];
      notices := [];
    }

    /** `playSound`. */
    method PlaySound(ctx: Context)
      modifies this
      ensures Snapshot() == Play(setup, old(Snapshot()), ctx)
      ensures !old(Passes(Snapshot(), ctx)) ==> unchanged(this)
    {
      if !enabled {
        return;
      }
      if ctx.now - lastPlayTime < ctx.cooldownMs {
        return;
      }
      lastPlayTime := ctx.now;
      if !ctx.soundExists {
        log := log + [SoundNotFound];
        return;
      }
      statusText := AlertText;
      alert := true;
      launches := launches + [Spawn(PlayerFor(setup.platform), ctx.now)];
      log := log + [Playing];
    }

    /** The timer callback armed by a play. */
    method RevertStatus()
      modifies this
      ensures Snapshot() == Revert(old(Snapshot()))
    {
      statusText := SpeakerText;
      alert := false;
    }

    /** The `fahhh.test` command. */
    method RunTestCommand(ctx: Context)
      modifies this
      ensures Snapshot() == TestCommand(setup, old(Snapshot()), ctx)
    {
      PlaySound(ctx);
      notices := notices + [AlertText];
    }

    /** The `fahhh.toggle` command. */
    method RunToggleCommand()
      modifies this
      ensures Snapshot() == Toggle(old(Snapshot()))
      ensures unchanged(this`lastPlayTime, this`previousErrorCount, this`log, this`launches, this`alert)
    {
      var current := enabled;
      enabled := !current;
      statusText := if !current then SpeakerText else MutedText;
      notices := notices + [ToggleNotice(!current)];
    }

    /** The diagnostics-changed handler; `gate` is the live `triggerOnDiagnostics`
        value and `perUri[k]` the severities of the diagnostics of the event's k-th
        resource. */
    method OnDidChangeDiagnostics(gate: bool, perUri: seq<seq<Severity>>, ctx: Context)
      modifies this
      ensures Snapshot() == OnDiagnostics(setup, old(Snapshot()), gate, perUri, ctx)
    {
      if !setup.diagnosticsWired || !gate {
        return;
      }
      var totalErrors := SumErrors(perUri);
      if totalErrors > previousErrorCount {
        log := log + [NewErrors(totalErrors - previousErrorCount)];
        ghost var logged := Snapshot();
        PlaySound(ctx);
        assert Snapshot() == Play(setup, logged, ctx);
      }
      previousErrorCount := totalErrors;
    }

    /** The task-process-ended handler; `gate` is the live `triggerOnTestFailure`
        value and `exitCode` is `None` when the host reports no exit code. */
    method OnDidEndTaskProcess(gate: bool, name: string, exitCode: Option<int>, ctx: Context)
      modifies this
      ensures Snapshot() == OnTaskEnd(setup, old(Snapshot()), gate, name, exitCode, ctx)
    {
      if !setup.tasksWired || !gate {
        return;
      }
      var isTest := IsTestTask(name);
      if isTest && exitCode != Some(0) && exitCode != None {
        log := log + [TaskFailed(name)];
        PlaySound(ctx);
      }
    }

    /** The terminal-data handler; `gate` is the live `triggerOnTestFailure` value. */
    method OnDidWriteTerminalData(gate: bool, data: string, ctx: Context)
      modifies this
      ensures Snapshot() == OnTerminalData(setup, old(Snapshot()), gate, data, ctx)
    {
      if !setup.terminalWired || !gate {
        return;
      }
      if IsFailureOutput(data) {
        PlaySound(ctx);
      }
    }
  }

  /** After a play, a toggle and the revert timer, the status bar shows the speaker
      glyph while the flag is off: the idle glyph follows the last toggle or revert,
      not the flag. */
  method RevertAfterDisableShowsSpeaker() returns (enabledAfter: bool, textAfter: string)
    ensures !enabledAfter && textAfter == SpeakerText
  {
    var session := new Session(OtherPlatform, true, true, true, true, true);
    session.PlaySound(Context(5000, 2000, true));
    session.RunToggleCommand();
    session.RevertStatus();
    enabledAfter, textAfter := session.enabled, session.statusText;
  }
}
