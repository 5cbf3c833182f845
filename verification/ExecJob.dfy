/** The job as the source has it: variables captured by closures, and one method for each event. Every method is proved
    to do what `ExecState` says, and to keep the invariant stated there. */
module ExecJob {
  import opened Options
  import opened ExecState

  /** Cutting chunk by chunk is cutting the whole, however it was split. */
  method Accept(kept: string, data: string, max: Option<nat>, ghost whole: string) returns (newData: string)
    ensures newData <= data && newData == Fitting(kept, data, max)
    ensures kept == Limit(whole, max) ==> kept + newData == Limit(whole + data, max)
  {
    if kept == Limit(whole, max) { FittingLimits(kept, data, max, whole); }
    newData := data;
    if max.Some? {
      newData := "";
      if |kept| < max.value {
        var room := max.value - |kept|;
        newData := if |data| > room then data[..room] else data;
      }
    }
  }

  class Job {
    const config: Config

    var ranCode: bool
    var stdout: string
    var stderr: string
    var exitCode: Option<int>
    var stdoutDone: bool
    var stderrDone: bool
    var killed: bool
    var callbackDone: bool
    var killTimer: bool
    var batchTimer: bool
    var forceTimers: seq<Option<string>>
    var bufOut: string
    var bufErr: string
    var cache: Entry
    var calls: seq<Call>
    var log: seq<Event>
    var listeners: seq<Listener>

    // History: what was received, and how the listeners joined.
    ghost var past: Past

    ghost function View(): State
      reads this
    {
      State(ranCode, stdout, stderr, exitCode, stdoutDone, stderrDone, killed, callbackDone,
            killTimer, batchTimer, forceTimers, bufOut, bufErr, cache, calls, Channel(log, listeners))
    }

    ghost predicate Valid()
      reads this
    {
      Ok(config, View(), past)
    }

    /** The job has the state that the event leads to, and its history records the event. */
    twostate predicate Took(e: Input)
      reads this
    {
      View() == Next(config, old(View()), e) && past == NextPast(config, old(View()), old(past), e)
    }

    constructor (config: Config)
      ensures Valid() && this.config == config && View() == Started(config)
      ensures past == Past("", "", "", false, [])
      ensures ranCode == config.spawned && (calls == [] <==> config.spawned)
    {
      this.config := config;
      ranCode, stdout, stderr, exitCode := config.spawned, "", "", None;
      stdoutDone, stderrDone, killed, callbackDone := false, false, false, false;
      killTimer, batchTimer, forceTimers := config.timeout && config.spawned, config.isJob && config.spawned, [];
      bufOut, bufErr, listeners := "", "", [];
      var call := Call(Some(config.texts.notSpawned), None);
      calls := if config.spawned then [] else [call];
      cache := if config.spawned then Entry(Running, "", "", 0) else EntryFor(config.texts, call);
      log := if config.spawned || !config.isJob then [] else [Finished(EntryFor(config.texts, call))];
      past := Past("", "", "", false, []);
      new;
      StartedIsOk(config);
    }

    /** Emit one event on the `updates` emitter. */
    method Emit(e: Event)
      modifies `log, `listeners
      ensures Channel(log, listeners) == Emitted(old(Channel(log, listeners)), e)
    {
      log := log + [e];
      listeners := DeliverAll(listeners, e);
    }

    /** `sendBatchedStream`: the buffers go out as events. */
    method SendBatched()
      modifies `log, `listeners, `bufOut, `bufErr
      ensures View() == Sent(old(View()))
      ensures log == old(log) + Batch(old(bufOut), old(bufErr)) && bufOut == "" && bufErr == ""
      ensures |log| == |old(log)| + (if old(bufOut) == "" then 0 else 1) + (if old(bufErr) == "" then 0 else 1)
      ensures old(bufOut) != "" ==> log[|old(log)|] == Stdout(old(bufOut))
      ensures old(bufErr) != "" ==> log[|log| - 1] == Stderr(old(bufErr))
    {
      if |bufOut| > 0 {
        Emit(Stdout(bufOut));
        bufOut := "";
      }
      if |bufErr| > 0 {
        Emit(Stderr(bufErr));
        bufErr := "";
      }
    }

    /** `flushStreamBuffer` */
    method Flush()
      modifies `batchTimer, `log, `listeners, `bufOut, `bufErr
      ensures View() == Flushed(old(View()))
      ensures !batchTimer && bufOut == "" && bufErr == "" && log == old(log) + Batch(old(bufOut), old(bufErr))
    {
      batchTimer := false;
      SendBatched();
    }

    /** Call back; for a job the callback stores the entry and emits `finished` before it returns. */
    method CallBack(call: Call)
      modifies `calls, `cache, `log, `listeners
      ensures View() == CalledBack(config, old(View()), call)
      ensures calls == old(calls) + [call]
      ensures config.isJob ==> cache == EntryFor(config.texts, call) && log == old(log) + [Finished(cache)]
      ensures !config.isJob ==> log == old(log) && listeners == old(listeners)
    {
      calls := calls + [call];
      if config.isJob {
        cache := EntryFor(config.texts, call);
        Emit(Finished(cache));
      }
    }

    /** Not ready, on hold, or called back. */
    method Finish(err: Option<string>)
      modifies this
      ensures View() == Concluded(config, old(View()), err) && past == old(past)
      ensures callbackDone || calls == old(calls)
    {
      if !killed && (!stdoutDone || !stderrDone || exitCode == None) {
        return;
      }
      if callbackDone {
        return;
      }
      if config.isJob && exitCode != None && (!stdoutDone || !stderrDone) {
        forceTimers := forceTimers + [err];
        return;
      }
      Complete(err);
    }

    /** The end of `finish`: flush what is buffered, stop the timers, and call back once. */
    method Complete(err: Option<string>)
      modifies `callbackDone, `batchTimer, `killTimer, `log, `listeners, `bufOut, `bufErr,
               `stdout, `stderr, `exitCode, `calls, `cache
      ensures View() == Ended(config, old(View()), err)
      ensures callbackDone && !killTimer && |calls| == |old(calls)| + 1 && calls[..|old(calls)|] == old(calls)
      ensures config.isJob ==> !batchTimer && bufOut == "" && bufErr == ""
      ensures var r := calls[|old(calls)|].result;
              r.Some? ==> stdout == r.value.stdout && stderr == r.value.stderr && exitCode == Some(r.value.exitCode)
    {
      var call := CallFor(config, err, ranCode, stdout, stderr, exitCode);
      if config.isJob {
        Flush();
      }
      Stop(call);
      CallBack(call);
    }

    method Stop(call: Call)
      modifies `callbackDone, `killTimer, `stdout, `stderr, `exitCode
      ensures View() == Stopped(old(View()), call)
    {
      callbackDone := true;
      killTimer := false;
      var r := call.result;
      if r.Some? {
        stdout, stderr, exitCode := r.value.stdout, r.value.stderr, Some(r.value.exitCode);
      }
    }

    /** A chunk that was accepted. */
    method TakeStdout(newData: string)
      modifies `stdout, `bufOut, `cache
      ensures View() == WithStdout(config, old(View()), newData)
    {
      stdout := stdout + newData;
      if config.isJob {
        bufOut := bufOut + newData;
        cache := cache.(stdout := stdout);
      }
    }

    method TakeStderr(newData: string)
      modifies `stderr, `bufErr, `cache
      ensures View() == WithStderr(config, old(View()), newData)
    {
      stderr := stderr + newData;
      if config.isJob {
        bufErr := bufErr + newData;
        cache := cache.(stderr := stderr);
      }
    }

    method Fail(text: string)
      modifies `ranCode, `batchTimer, `log, `listeners, `bufOut, `bufErr, `stderr, `exitCode
      ensures View() == WithFailure(config, old(View()), text)
    {
      if exitCode == None {
        exitCode := Some(1);
      }
      stderr := stderr + text;
      ranCode := false;
      if config.isJob {
        Flush();
      }
    }

    method FailAndFinish(text: string)
      modifies this
      ensures View() == Heard(config, old(View()), Failure(text)) && past == old(past)
    {
      Fail(text);
      Finish(None);
    }

    method FireKill(exited: bool)
      modifies this
      ensures View() == TimedOut(config, old(View()), exited) && past == old(past)
    {
      killTimer := false;
      if exited {
        return;
      }
      killed := true;
      Finish(Some(config.texts.timedOut));
    }

    method FireForce(i: nat)
      requires i < |forceTimers|
      modifies this
      ensures View() == Forced(config, old(View()), i) && past == old(past)
    {
      var err := forceTimers[i];
      forceTimers := forceTimers[..i] + forceTimers[i + 1..];
      if !callbackDone {
        stdoutDone := true;
        stderrDone := true;
        Finish(err);
      }
    }

    method EndStdout()
      modifies this
      ensures View() == Heard(config, old(View()), StdoutEnd) && past == old(past)
    {
      stdoutDone := true;
      Finish(None);
    }

    method EndStderr()
      modifies this
      ensures View() == Heard(config, old(View()), StderrEnd) && past == old(past)
    {
      stderrDone := true;
      Finish(None);
    }

    method SetExit(code: Option<int>)
      modifies this
      ensures View() == Heard(config, old(View()), Exit(code)) && past == old(past)
    {
      exitCode := Some(CodeFor(code));
      Finish(None);
    }

    // ----- the events -----

    /** A chunk of stdout: kept up to the limit, buffered for streaming, and visible in the cache at once. */
    method OnStdout(data: string)
      requires config.spawned && Valid()
      modifies this
      ensures Valid() && Took(StdoutChunk(data))
      ensures !callbackDone ==> past.received == old(past.received) + data && stdout == Limit(past.received, config.maxOutput)
      ensures !callbackDone && config.isJob ==> StdoutOf(log) + bufOut == stdout == cache.stdout
    {
      ChunkKeepsOk(config, View(), past, StdoutChunk(data));
      past := NextPast(config, View(), past, StdoutChunk(data));
      var newData := Accept(stdout, data, config.maxOutput, stdout);
      TakeStdout(newData);
    }

    method OnStderr(data: string)
      requires config.spawned && Valid()
      modifies this
      ensures Valid() && Took(StderrChunk(data))
      ensures !callbackDone ==> past.receivedErr == old(past.receivedErr) + data
      ensures !callbackDone && !past.errored ==> stderr == Limit(past.receivedErr, config.maxOutput)
      ensures !callbackDone && !past.errored && config.isJob ==> StderrOf(log) + bufErr == stderr
      ensures !callbackDone && config.isJob ==> cache == old(cache).(stderr := stderr)
    {
      ChunkKeepsOk(config, View(), past, StderrChunk(data));
      past := NextPast(config, View(), past, StderrChunk(data));
      var newData := Accept(stderr, data, config.maxOutput, stderr);
      TakeStderr(newData);
    }

    method OnStdoutEnd()
      requires config.spawned && Valid()
      modifies this
      ensures Valid() && Took(StdoutEnd) && stdoutDone
      ensures !callbackDone ==> exitCode == old(exitCode) && calls == []
      ensures stderrDone && exitCode.Some? ==> callbackDone
    {
      HeardIsOk(config, View(), past, StdoutEnd);
      EndStdout();
    }

    method OnStderrEnd()
      requires config.spawned && Valid()
      modifies this
      ensures Valid() && Took(StderrEnd) && stderrDone
      ensures !callbackDone ==> exitCode == old(exitCode) && calls == []
      ensures stdoutDone && exitCode.Some? ==> callbackDone
    {
      HeardIsOk(config, View(), past, StderrEnd);
      EndStderr();
    }

    /** A process that was killed by a signal has no exit code; it counts as 0. */
    method OnExit(code: Option<int>)
      requires config.spawned && Valid()
      modifies this
      ensures Valid() && Took(Exit(code)) && exitCode.Some?
      ensures !callbackDone ==> exitCode == Some(CodeFor(code)) && killTimer == old(killTimer) && calls == []
      ensures stdoutDone && stderrDone ==> callbackDone
    {
      HeardIsOk(config, View(), past, Exit(code));
      SetExit(code);
    }

    /** The child process reports an error. Its text goes to stderr without being streamed, after a flush. */
    method OnError(text: string)
      requires config.spawned && Valid()
      modifies this
      ensures Valid() && Took(Failure(text)) && exitCode.Some? && past.errored && !ranCode
      ensures !callbackDone ==> exitCode == Some(if old(exitCode) == None then 1 else old(exitCode).value)
      ensures !callbackDone ==> stderr == old(stderr) + text && calls == []
      ensures !callbackDone && config.isJob ==>
                bufOut == "" && bufErr == "" && !batchTimer && log == old(log) + Batch(old(bufOut), old(bufErr))
    {
      FailureIsOk(config, View(), past, text);
      past := past.(errored := true);
      FailAndFinish(text);
    }

    /** The kill timer fires; `exited` is what the child process reports about itself. */
    method OnKillTimer(exited: bool)
      requires config.spawned && Valid() && killTimer
      modifies this
      ensures Valid() && Took(KillDue(exited)) && !killTimer && killed == (old(killed) || !exited)
      ensures !exited ==> callbackDone || forceTimers == old(forceTimers) + [Some(config.texts.timedOut)]
      ensures !callbackDone ==> exitCode == old(exitCode) && calls == []
    {
      hide Ok, Concluded, TimedOut;
      TimedOutIsOk(config, View(), past, exited);
      FireKill(exited);
    }

    /** A forced completion is due; afterwards the job is over, whether or not its pipes ever close. */
    method OnForceTimer(i: nat)
      requires config.spawned && Valid() && i < |forceTimers|
      modifies this
      ensures Valid() && Took(ForceDue(i)) && callbackDone
      ensures old(callbackDone) ==> calls == old(calls)
      ensures !old(callbackDone) ==>
                calls == [CallFor(config, old(forceTimers[i]), ranCode, old(stdout), old(stderr), old(exitCode))]
    {
      hide Ok, Concluded, Forced;
      ghost var s, p := View(), past;
      ForcedIsOk(config, s, p, i);
      FireForce(i);
      assert View() == Forced(config, s, i) == Next(config, s, ForceDue(i));
      assert past == p == NextPast(config, s, p, ForceDue(i));
    }

    method OnBatchTimer()
      requires Valid() && batchTimer
      modifies this
      ensures Valid() && Took(Tick) && bufOut == "" && bufErr == ""
      ensures log == old(log) + Batch(old(bufOut), old(bufErr))
    {
      TickIsOk(config, View(), past);
      SendBatched();
    }

    /** A resource sample; the monitor may emit one even after the job is over. */
    method OnStats(sample: int)
      requires config.isJob && Valid()
      modifies this
      ensures Valid() && Took(Sample(sample)) && log == old(log) + [Stats(sample)]
    {
      hide Ok;
      SampleIsOk(config, View(), past, sample);
      Emit(Stats(sample));
    }

    /** `executeStream`: subscribe, send the snapshot, and finish at once if the job is already over. */
    method Join()
      requires config.isJob && Valid()
      modifies this
      ensures Valid() && Took(Joins)
      ensures past.joinings ==
              old(past.joinings) + [Joining(|log|, cache, bufOut, if past.errored then None else Some(bufErr))]
      ensures |listeners| == |old(listeners)| + 1 && listeners[..|old(listeners)|] == old(listeners)
    {
      JoinedIsOk(config, View(), past);
      past := NextPast(config, View(), past, Joins);
      Subscribe();
    }

    method Subscribe()
      modifies `listeners
      ensures View() == Joined(old(View()))
    {
      var current := cache;
      var seen := [JobInfo(current)];
      if current.status != Running {
        seen := seen + [Done(current), End];
        assert seen == [JobInfo(current), Done(current), End];
      }
      listeners := listeners + [Listener(seen, current.status != Running, current.status == Running)];
    }

    /** Timers fire only while armed, and a process that was never spawned has no events. */
    method Take(e: Input)
      requires Valid()
      modifies this
      ensures Valid() && Took(e)
    {
      hide Ok;
      match e
      case StdoutChunk(data) => if config.spawned { OnStdout(data); }
      case StderrChunk(data) => if config.spawned { OnStderr(data); }
      case StdoutEnd => if config.spawned { OnStdoutEnd(); }
      case StderrEnd => if config.spawned { OnStderrEnd(); }
      case Exit(code) => if config.spawned { OnExit(code); }
      case Failure(text) => if config.spawned { OnError(text); }
      case KillDue(exited) => if config.spawned && killTimer { OnKillTimer(exited); }
      case ForceDue(which) => if config.spawned && which < |forceTimers| { OnForceTimer(which); }
      case Tick => if batchTimer { OnBatchTimer(); }
      case Sample(sample) => if config.isJob { OnStats(sample); }
      case Joins => if config.isJob { Join(); }
    }
  }
}
