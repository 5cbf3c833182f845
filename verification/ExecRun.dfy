/** Whole runs of a job: any finite sequence of events, in any order. When a job ends and with what result is read off
    the sequence itself, without following the job; so is what was streamed, and what each listener was sent. */
module ExecRun {
  import opened Options
  import opened ExecState
  import opened ExecJob

  function After(c: Config, inputs: seq<Input>): State {
    if inputs == [] then Started(c)
    else
      var n := |inputs| - 1;
      Next(c, After(c, inputs[..n]), inputs[n])
  }

  function PastAfter(c: Config, inputs: seq<Input>): Past {
    if inputs == [] then Past("", "", "", false, [])
    else
      var n := |inputs| - 1;
      NextPast(c, After(c, inputs[..n]), PastAfter(c, inputs[..n]), inputs[n])
  }

  lemma {:induction false} RunIsOk(c: Config, inputs: seq<Input>)
    ensures Ok(c, After(c, inputs), PastAfter(c, inputs))
  {
    if inputs == [] {
      StartedIsOk(c);
    } else {
      var n := |inputs| - 1;
      RunIsOk(c, inputs[..n]);
      NextIsOk(c, After(c, inputs[..n]), PastAfter(c, inputs[..n]), inputs[n]);
    }
  }

  // ----- reading a sequence of events -----

  /** Everything the process wrote to stdout. */
  function OutOf(inputs: seq<Input>): string {
    if inputs == [] then ""
    else
      var e := inputs[|inputs| - 1];
      OutOf(inputs[..|inputs| - 1]) + if e.StdoutChunk? then e.data else ""
  }

  /** What is kept of stderr: chunks up to the limit, and the texts of errors in full. */
  function ErrOf(max: Option<nat>, inputs: seq<Input>): string {
    if inputs == [] then ""
    else
      var kept := ErrOf(max, inputs[..|inputs| - 1]);
      match inputs[|inputs| - 1]
      case StderrChunk(data) => kept + Fitting(kept, data, max)
      case Failure(text) => kept + text
      case _ => kept
  }

  /** The exit code: the last one reported, or 1 for an error that came first. */
  function CodeOf(inputs: seq<Input>): Option<int> {
    if inputs == [] then None
    else
      var code := CodeOf(inputs[..|inputs| - 1]);
      match inputs[|inputs| - 1]
      case Exit(given) => Some(CodeFor(given))
      case Failure(_) => if code == None then Some(1) else code
      case _ => code
  }

  /** What the cache shows of stderr: what was kept when the last chunk of it came. */
  function ShownErr(max: Option<nat>, inputs: seq<Input>): string {
    if inputs == [] then ""
    else if inputs[|inputs| - 1].StderrChunk? then ErrOf(max, inputs)
    else ShownErr(max, inputs[..|inputs| - 1])
  }

  predicate HasFailure(inputs: seq<Input>) {
    exists e :: e in inputs && e.Failure?
  }

  predicate NoKill(inputs: seq<Input>) {
    forall e :: e in inputs ==> !e.KillDue?
  }

  /** Both pipes have ended and there is an exit code. */
  predicate Ready(inputs: seq<Input>) {
    StdoutEnd in inputs && StderrEnd in inputs && CodeOf(inputs).Some?
  }

  /** The kill timer fires on a process that has not exited. */
  predicate Kills(c: Config, before: seq<Input>, e: Input) {
    e == KillDue(false) && c.timeout && NoKill(before)
  }

  /** The events after which `finish` is tried. */
  predicate Tries(e: Input) {
    e.StdoutEnd? || e.StderrEnd? || e.Exit? || e.Failure?
  }

  /** How many forced completions are pending: one for the kill, and one for each later attempt to finish. */
  function Pending(c: Config, inputs: seq<Input>): nat {
    if inputs == [] then 0
    else
      var before, e := inputs[..|inputs| - 1], inputs[|inputs| - 1];
      var k := Pending(c, before);
      if k > 0 then k + (if Tries(e) then 1 else 0)
      else if Kills(c, before, e) then 1 else 0
  }

  /** The event at which a job that is still running calls back: the last of what a regular end needs; or the kill,
      unless it is a job that has an exit code already; or a forced completion. */
  predicate EndsWith(c: Config, before: seq<Input>, e: Input) {
    || Ready(before + [e])
    || (Kills(c, before, e) && (!c.isJob || CodeOf(before) == None))
    || (e.ForceDue? && e.which < Pending(c, before))
  }

  /** The index of the event at which a job calls back, or the number of events if it does not. */
  function EndOf(c: Config, inputs: seq<Input>): (d: nat)
    ensures d <= |inputs|
    ensures d < |inputs| ==> EndsWith(c, inputs[..d], inputs[d])
  {
    if inputs == [] then 0
    else
      var before := inputs[..|inputs| - 1];
      var d := EndOf(c, before);
      assert before[..d] == inputs[..d];
      if d < |before| then d
      else if EndsWith(c, before, inputs[|before|]) then d else d + 1
  }

  /** The kill itself, or the forced completion that it asked for. */
  predicate TimesOut(e: Input) {
    e == KillDue(false) || e == ForceDue(0)
  }

  /** The result of a job that was not timed out. */
  function Ordinary(c: Config, heard: seq<Input>): Call {
    CallFor(c, None, !HasFailure(heard), Limit(OutOf(heard), c.maxOutput), ErrOf(c.maxOutput, heard), CodeOf(heard))
  }

  function OutcomeOf(c: Config, heard: seq<Input>): Call
    requires heard != []
  {
    if TimesOut(heard[|heard| - 1]) then Call(Some(c.texts.timedOut), None) else Ordinary(c, heard)
  }

  // ----- when a job ends, and how -----

  /** While a job runs, its state says what can be read off the events. */
  ghost predicate Tracks(c: Config, inputs: seq<Input>, s: State) {
    && !s.callbackDone && s.calls == [] && !Ready(inputs)
    && (s.stdoutDone <==> StdoutEnd in inputs) && (s.stderrDone <==> StderrEnd in inputs)
    && s.exitCode == CodeOf(inputs) && (s.ranCode <==> !HasFailure(inputs))
    && s.stdout == Limit(OutOf(inputs), c.maxOutput) && s.stderr == ErrOf(c.maxOutput, inputs)
    && (c.isJob ==> s.cache == Entry(Running, s.stdout, ShownErr(c.maxOutput, inputs), 0))
    && (s.killTimer <==> c.timeout && NoKill(inputs))
    && (s.killed <==> Pending(c, inputs) > 0)
    && TracksTimers(c, s.forceTimers, Pending(c, inputs))
    && (Pending(c, inputs) > 0 ==> c.isJob && s.exitCode.Some? && !NoKill(inputs))
  }

  /** Only the first forced completion reports the timeout. */
  predicate TracksTimers(c: Config, timers: seq<Option<string>>, k: nat) {
    && |timers| == k
    && forall i :: 0 <= i < k ==> timers[i] == if i == 0 then Some(c.texts.timedOut) else None
  }

  lemma Appended(inputs: seq<Input>, e: Input)
    ensures (inputs + [e])[..|inputs|] == inputs
    ensures forall x :: x in inputs + [e] <==> x in inputs || x == e
    ensures HasFailure(inputs + [e]) <==> HasFailure(inputs) || e.Failure?
    ensures !e.StdoutChunk? ==> OutOf(inputs + [e]) == OutOf(inputs)
    ensures forall max :: !e.StderrChunk? ==> ShownErr(max, inputs + [e]) == ShownErr(max, inputs)
    ensures NoKill(inputs + [e]) <==> NoKill(inputs) && !e.KillDue?
  {
    var all := inputs + [e];
    assert all[|inputs|] == e && forall i :: 0 <= i < |inputs| ==> all[i] == inputs[i];
    assert OutOf(inputs) + "" == OutOf(inputs);
  }

  /** The job before and after an event, given that the job before was followed correctly. */
  ghost predicate Advances(c: Config, before: seq<Input>, s: State, e: Input) {
    var s' := Next(c, s, e);
    if EndsWith(c, before, e) then
      && s'.callbackDone && s'.calls == [OutcomeOf(c, before + [e])]
      && (c.isJob ==> s'.cache == EntryFor(c.texts, s'.calls[0]))
    else Tracks(c, before + [e], s')
  }

  lemma EndedBy(c: Config, s: State, err: Option<string>)
    ensures var s' := Ended(c, s, err);
            var call := CallFor(c, err, s.ranCode, s.stdout, s.stderr, s.exitCode);
            && s'.callbackDone && s'.calls == s.calls + [call]
            && (c.isJob ==> s'.cache == EntryFor(c.texts, call))
  {
    var call := CallFor(c, err, s.ranCode, s.stdout, s.stderr, s.exitCode);
    var s' := Stopped(if c.isJob then Flushed(s) else s, call);
    assert s'.callbackDone && s'.calls == s.calls;
    assert Ended(c, s, err) == CalledBack(c, s', call);
  }

  /** The three ways in which `finish` can go on. */
  lemma ConcludedBy(c: Config, s: State, err: Option<string>)
    requires !s.callbackDone && s.calls == []
    ensures var s', closed := Concluded(c, s, err), s.stdoutDone && s.stderrDone;
            if !s.killed && !(closed && s.exitCode.Some?) then s' == s
            else if c.isJob && s.exitCode.Some? && !closed then s' == s.(forceTimers := s.forceTimers + [err])
            else
              && s'.callbackDone && s'.calls == [CallFor(c, err, s.ranCode, s.stdout, s.stderr, s.exitCode)]
              && (c.isJob ==> s'.cache == EntryFor(c.texts, s'.calls[0]))
  {
    EndedBy(c, s, err);
  }

  lemma FailedBy(c: Config, s: State, text: string)
    ensures var s' := WithFailure(c, s, text);
            && s'.callbackDone == s.callbackDone && s'.calls == s.calls && s'.forceTimers == s.forceTimers
            && s'.stdoutDone == s.stdoutDone && s'.stderrDone == s.stderrDone && s'.stdout == s.stdout && s'.cache == s.cache
            && s'.killed == s.killed && s'.killTimer == s.killTimer
            && !s'.ranCode && s'.stderr == s.stderr + text
            && s'.exitCode == if s.exitCode == None then Some(1) else s.exitCode
  {
  }

  lemma ChunkAdvances(c: Config, before: seq<Input>, s: State, e: Input)
    requires c.spawned && Tracks(c, before, s) && (e.StdoutChunk? || e.StderrChunk?)
    ensures Advances(c, before, s, e)
  {
    hide Fitting, Limit, HasFailure;
    Appended(before, e);
    if e.StdoutChunk? { FittingLimits(s.stdout, e.data, c.maxOutput, OutOf(before)); }
  }

  lemma QuietAdvances(c: Config, before: seq<Input>, s: State, e: Input)
    requires c.spawned && Tracks(c, before, s) && (e.Tick? || e.Sample? || e.Joins?)
    ensures Advances(c, before, s, e)
  {
    hide Emitted, EmittedUnless, HasFailure;
    Appended(before, e);
  }

  /** The state s' to which `finish` is applied differs from s by what the event has set. */
  ghost predicate Prepared(c: Config, before: seq<Input>, s: State, e: Input, s': State) {
    && s'.callbackDone == s.callbackDone && s'.calls == s.calls && s'.forceTimers == s.forceTimers
    && s'.killed == s.killed && s'.killTimer == s.killTimer && s'.stdout == s.stdout && s'.cache == s.cache
    && s'.stdoutDone == (s.stdoutDone || e.StdoutEnd?) && s'.stderrDone == (s.stderrDone || e.StderrEnd?)
    && s'.exitCode == CodeOf(before + [e]) && s'.stderr == ErrOf(c.maxOutput, before + [e])
    && s'.ranCode == !HasFailure(before + [e])
  }

  lemma TryWaits(c: Config, before: seq<Input>, s: State, e: Input, s': State)
    requires c.spawned && Tracks(c, before, s) && Tries(e) && Prepared(c, before, s, e, s')
    requires !Ready(before + [e])
    ensures Tracks(c, before + [e], if Pending(c, before) == 0 then s' else s'.(forceTimers := s'.forceTimers + [None]))
  {
    hide Next, Ready, ErrOf, OutOf, HasFailure;
    Appended(before, e);
  }

  lemma TryAdvances(c: Config, before: seq<Input>, s: State, e: Input, s': State)
    requires c.spawned && Tracks(c, before, s) && Tries(e) && Prepared(c, before, s, e, s')
    requires Next(c, s, e) == Concluded(c, s', None)
    ensures Advances(c, before, s, e)
  {
    hide Concluded, CodeOf, ErrOf;
    ConcludedBy(c, s', None);
    TryIsReady(c, before, s, e, s');
    if Ready(before + [e]) {
      Appended(before, e);
    } else {
      TryWaits(c, before, s, e, s');
    }
  }

  lemma TryIsReady(c: Config, before: seq<Input>, s: State, e: Input, s': State)
    requires c.spawned && Tracks(c, before, s) && Tries(e) && Prepared(c, before, s, e, s')
    ensures EndsWith(c, before, e) <==> Ready(before + [e])
    ensures Ready(before + [e]) <==> s'.stdoutDone && s'.stderrDone && s'.exitCode.Some?
    ensures Pending(c, before) > 0 ==> s'.exitCode.Some?
  {
    Appended(before, e);
  }

  lemma KillAdvances(c: Config, before: seq<Input>, s: State, e: Input)
    requires c.spawned && Tracks(c, before, s) && e.KillDue?
    ensures Advances(c, before, s, e)
  {
    if Kills(c, before, e) {
      KillFires(c, before, s, e);
    } else {
      Appended(before, e);
    }
  }

  lemma KillFires(c: Config, before: seq<Input>, s: State, e: Input)
    requires c.spawned && Tracks(c, before, s) && Kills(c, before, e)
    ensures Advances(c, before, s, e)
  {
    Appended(before, e);
    var s' := s.(killTimer := false, killed := true);
    assert Next(c, s, e) == Concluded(c, s', Some(c.texts.timedOut));
    ConcludedBy(c, s', Some(c.texts.timedOut));
  }

  lemma ForceAdvances(c: Config, before: seq<Input>, s: State, e: Input)
    requires c.spawned && Tracks(c, before, s) && e.ForceDue?
    ensures Advances(c, before, s, e)
  {
    hide Forced, OutOf;
    Appended(before, e);
    if e.which < |s.forceTimers| { ForceEnds(c, s, e.which); }
  }

  lemma ForceEnds(c: Config, s: State, i: nat)
    requires i < |s.forceTimers| && !s.callbackDone && s.calls == [] && s.exitCode.Some?
    ensures var s' := Forced(c, s, i);
            && s'.callbackDone && s'.calls == [CallFor(c, s.forceTimers[i], s.ranCode, s.stdout, s.stderr, s.exitCode)]
            && (c.isJob ==> s'.cache == EntryFor(c.texts, s'.calls[0]))
  {
    var s' := s.(forceTimers := s.forceTimers[..i] + s.forceTimers[i + 1..], stdoutDone := true, stderrDone := true);
    ConcludedBy(c, s', s.forceTimers[i]);
  }

  lemma EventAdvances(c: Config, before: seq<Input>, s: State, e: Input)
    requires c.spawned && Tracks(c, before, s)
    ensures Advances(c, before, s, e)
  {
    hide EndsWith, Concluded, TimedOut, Forced, OutcomeOf;
    Appended(before, e);
    match e
    case StdoutEnd => TryAdvances(c, before, s, e, s.(stdoutDone := true));
    case StderrEnd => TryAdvances(c, before, s, e, s.(stderrDone := true));
    case Exit(code) => TryAdvances(c, before, s, e, s.(exitCode := Some(CodeFor(code))));
    case Failure(text) =>
      FailedBy(c, s, text);
      TryAdvances(c, before, s, e, WithFailure(c, s, text));
    case KillDue(_) => KillAdvances(c, before, s, e);
    case ForceDue(_) => ForceAdvances(c, before, s, e);
    case StdoutChunk(_) => ChunkAdvances(c, before, s, e);
    case StderrChunk(_) => ChunkAdvances(c, before, s, e);
    case _ => QuietAdvances(c, before, s, e);
  }

  lemma OneMoreEvent(c: Config, before: seq<Input>, e: Input)
    ensures After(c, before + [e]) == Next(c, After(c, before), e)
  {
    assert (before + [e])[..|before|] == before;
  }

  lemma EndOfGrows(c: Config, before: seq<Input>, e: Input)
    ensures var d := EndOf(c, before);
            EndOf(c, before + [e]) == if d < |before| || EndsWith(c, before, e) then d else d + 1
  {
    assert (before + [e])[..|before|] == before;
  }

  /** Until its end a job is followed correctly by reading the events; then it has called back once. */
  ghost predicate Tracked(c: Config, inputs: seq<Input>) {
    var s, d := After(c, inputs), EndOf(c, inputs);
    if d == |inputs| then Tracks(c, inputs, s) else s.callbackDone && s.calls == [OutcomeOf(c, inputs[..d + 1])]
  }

  lemma StartIsTracked(c: Config)
    requires c.spawned
    ensures Tracked(c, [])
  {
  }

  lemma {:induction false} RunIsTracked(c: Config, inputs: seq<Input>)
    requires c.spawned
    ensures Tracked(c, inputs)
  {
    hide Tracked;
    if inputs == [] {
      StartIsTracked(c);
    } else {
      var before, e := inputs[..|inputs| - 1], inputs[|inputs| - 1];
      RunIsTracked(c, before);
      assert inputs == before + [e];
      OneMoreIsTracked(c, before, e);
    }
  }

  lemma OneMoreIsTracked(c: Config, before: seq<Input>, e: Input)
    requires c.spawned && Tracked(c, before)
    ensures Tracked(c, before + [e])
  {
    hide Next, Tracks, EndsWith, OutcomeOf, EndOf, After;
    var s, d := After(c, before), EndOf(c, before);
    OneMoreEvent(c, before, e);
    EndOfGrows(c, before, e);
    if d == |before| {
      EventAdvances(c, before, s, e);
      assert (before + [e])[..d + 1] == before + [e];
    } else {
      CallsAreFinal(c, s, e);
      assert (before + [e])[..d + 1] == before[..d + 1];
    }
  }

  /** Once a job has called back it never does so again. */
  lemma CallsAreFinal(c: Config, s: State, e: Input)
    requires s.callbackDone
    ensures Next(c, s, e).callbackDone && Next(c, s, e).calls == s.calls
  {
    if e.Failure? { FailedBy(c, s, e.text); }
  }

  /** Whether, when and how a job calls back: at the event that the sequence itself designates, and never again. */
  lemma CallbackFires(c: Config, inputs: seq<Input>)
    ensures var s, d := After(c, inputs), EndOf(c, inputs);
            if !c.spawned then s.calls == [Call(Some(c.texts.notSpawned), None)]
            else if d == |inputs| then s.calls == [] && !Ready(inputs)
            else s.calls == [OutcomeOf(c, inputs[..d + 1])]
  {
    if c.spawned {
      RunIsTracked(c, inputs);
    } else {
      NeverSpawned(c, inputs);
    }
  }

  lemma {:induction false} NeverSpawned(c: Config, inputs: seq<Input>)
    requires !c.spawned
    ensures After(c, inputs).calls == [Call(Some(c.texts.notSpawned), None)]
    ensures c.texts.Worded() ==> After(c, inputs).cache == Entry(Error, "", c.texts.notSpawned, 1)
  {
    hide Next;
    if inputs != [] {
      var before, e := inputs[..|inputs| - 1], inputs[|inputs| - 1];
      NeverSpawned(c, before);
      assert inputs == before + [e];
      OneMoreEvent(c, before, e);
      UnspawnedIsSilent(c, After(c, before), e);
    }
  }

  lemma UnspawnedIsSilent(c: Config, s: State, e: Input)
    requires !c.spawned
    ensures Next(c, s, e).calls == s.calls && Next(c, s, e).cache == s.cache
  {
    match e
    case Tick =>
    case Sample(_) =>
    case Joins =>
    case _ => assert Next(c, s, e) == s;
  }

  /** When the kill timer fires on a running job, that is its end, unless an exit code is known already; then the end
      comes later, when both pipes have ended or a forced completion is due. */
  lemma KilledJobEndsIff(c: Config, inputs: seq<Input>, k: nat)
    requires c.spawned && k < |inputs| && Kills(c, inputs[..k], inputs[k])
    requires k <= EndOf(c, inputs) < |inputs|
    ensures var d := EndOf(c, inputs);
            && (d == k <==> !c.isJob || CodeOf(inputs[..k]) == None)
            && (d > k ==> Ready(inputs[..d + 1]) || (inputs[d].ForceDue? && inputs[d].which < Pending(c, inputs[..d])))
            && (inputs[d] == KillDue(false) <==> d == k)
  {
    KillEndsIff(c, inputs, k);
    if EndOf(c, inputs) > k { KillIsOnce(c, inputs, k); }
  }

  lemma KilledTimesOutIff(c: Config, inputs: seq<Input>, k: nat)
    requires c.spawned && k < |inputs| && Kills(c, inputs[..k], inputs[k])
    requires k <= EndOf(c, inputs) < |inputs|
    ensures var e := inputs[EndOf(c, inputs)];
            TimesOut(e) <==> !c.isJob || CodeOf(inputs[..k]) == None || e == ForceDue(0)
  {
    KilledJobEndsIff(c, inputs, k);
  }

  /** Such a job reports the timeout if and only if the kill is its end or the forced completion of the kill is; if both
      pipes end first, or another forced completion is due first, it is reported as if nothing had been killed. */
  lemma KilledJobReportsTimeoutIff(c: Config, inputs: seq<Input>, k: nat)
    requires c.spawned && k < |inputs| && Kills(c, inputs[..k], inputs[k])
    requires k <= EndOf(c, inputs) < |inputs|
    ensures var d := EndOf(c, inputs);
            After(c, inputs).calls ==
            [if !c.isJob || CodeOf(inputs[..k]) == None || inputs[d] == ForceDue(0) then Call(Some(c.texts.timedOut), None)
             else Ordinary(c, inputs[..d + 1])]
  {
    hide After, Kills, EndsWith, Ordinary, TimesOut, OutcomeOf, CodeOf, Ready;
    KilledTimesOutIff(c, inputs, k);
    OutcomeAt(c, inputs, EndOf(c, inputs));
    CallbackFires(c, inputs);
  }

  lemma OutcomeAt(c: Config, inputs: seq<Input>, d: nat)
    requires d < |inputs|
    ensures OutcomeOf(c, inputs[..d + 1]) ==
            if TimesOut(inputs[d]) then Call(Some(c.texts.timedOut), None) else Ordinary(c, inputs[..d + 1])
  {
    assert inputs[..d + 1][d] == inputs[d];
  }

  /** Up to its end a job has not all that a regular end needs. */
  lemma RunningUntil(c: Config, inputs: seq<Input>, k: nat)
    requires c.spawned && k <= EndOf(c, inputs)
    ensures !Ready(inputs[..k])
  {
    EndIsFirst(c, inputs, k);
    CallbackFires(c, inputs[..k]);
  }

  /** It is the first event at which the job could end. */
  lemma {:induction false} EndIsFirst(c: Config, inputs: seq<Input>, k: nat)
    requires k <= |inputs|
    ensures k <= EndOf(c, inputs) ==> EndOf(c, inputs[..k]) == k
    ensures k < EndOf(c, inputs) ==> !EndsWith(c, inputs[..k], inputs[k])
  {
    if k == |inputs| {
      assert inputs[..k] == inputs;
    } else {
      var before := inputs[..|inputs| - 1];
      assert before[..k] == inputs[..k];
      EndIsFirst(c, before, k);
    }
  }

  /** The kill is the end unless the job is held. */
  lemma KillEndsIff(c: Config, inputs: seq<Input>, k: nat)
    requires c.spawned && k < |inputs| && Kills(c, inputs[..k], inputs[k]) && k <= EndOf(c, inputs) < |inputs|
    ensures EndOf(c, inputs) == k <==> !c.isJob || CodeOf(inputs[..k]) == None
  {
    RunningUntil(c, inputs, k);
    Appended(inputs[..k], inputs[k]);
    EndIsFirst(c, inputs, k);
  }

  lemma KillIsNotReady(before: seq<Input>, e: Input)
    requires e.KillDue?
    ensures Ready(before + [e]) <==> Ready(before)
  {
    Appended(before, e);
  }

  /** The timer is armed once, so the end of a held job is the regular one or a forced completion. */
  lemma KillIsOnce(c: Config, inputs: seq<Input>, k: nat)
    requires c.spawned && k < EndOf(c, inputs) < |inputs| && inputs[k].KillDue?
    ensures var d := EndOf(c, inputs);
            && inputs[d] != KillDue(false)
            && (Ready(inputs[..d + 1]) || (inputs[d].ForceDue? && inputs[d].which < Pending(c, inputs[..d])))
  {
    hide EndOf, Ready, Pending;
    var d := EndOf(c, inputs);
    RunningUntil(c, inputs, d);
    var before, e := inputs[..d], inputs[d];
    assert !NoKill(before) by { assert before[k] in before; }
    assert before + [e] == inputs[..d + 1];
    if e.KillDue? { KillIsNotReady(before, e); }
  }

  /** How an outcome is recorded. */
  lemma OutcomeIsRecorded(c: Config, heard: seq<Input>)
    requires c.isJob && c.texts.Worded() && heard != []
    ensures var entry, out := EntryFor(c.texts, OutcomeOf(c, heard)), TimesOut(heard[|heard| - 1]);
            && entry.status != Running
            && (entry.status == Completed <==> !out && !HasFailure(heard) && (c.errOnExit ==> CodeOf(heard) == Some(0)))
            && (entry.status == Error ==> entry.stdout == "" && entry.exitCode == 1)
            && (out ==> entry.stderr == c.texts.timedOut)
            && (!out && c.errOnExit && CodeOf(heard) != Some(0) ==>
                  entry.stderr == if ErrOf(c.maxOutput, heard) == "" then c.texts.noResult else ErrOf(c.maxOutput, heard))
  {
    hide HasFailure, CodeOf, ErrOf, OutOf, Limit;
  }

  /** A job is recorded as completed exactly if its end was not the kill or the forced completion of the kill, no error
      was reported, and it did not fail where failing matters; a failure that wrote nothing to stderr has no result. */
  lemma CompletedIff(c: Config, inputs: seq<Input>)
    requires c.spawned && c.isJob && c.texts.Worded() && EndOf(c, inputs) < |inputs|
    ensures var s, d := After(c, inputs), EndOf(c, inputs);
            var heard := inputs[..d + 1];
            var entry := EntryFor(c.texts, OutcomeOf(c, heard));
            && s.calls == [OutcomeOf(c, heard)] && s.cache.status == entry.status != Running
            && (entry.status == Completed <==>
                  !TimesOut(inputs[d]) && !HasFailure(heard) && (c.errOnExit ==> CodeOf(heard) == Some(0)))
            && (entry.status == Error ==> entry.stdout == "" && entry.exitCode == 1)
            && (TimesOut(inputs[d]) ==> entry.stderr == c.texts.timedOut)
            && (!TimesOut(inputs[d]) && c.errOnExit && CodeOf(heard) != Some(0) ==>
                  entry.stderr == if ErrOf(c.maxOutput, heard) == "" then c.texts.noResult else ErrOf(c.maxOutput, heard))
  {
    hide After, EndOf, OutcomeOf, EntryFor, TimesOut, HasFailure, CodeOf, ErrOf, Settled;
    RunIsTracked(c, inputs);
    RunIsOk(c, inputs);
    OutcomeIsRecorded(c, inputs[..EndOf(c, inputs) + 1]);
  }

  // ----- what was streamed -----

  lemma {:induction false} ReceivedUntilEnd(c: Config, inputs: seq<Input>)
    ensures PastAfter(c, inputs).received == if c.spawned then OutOf(inputs[..EndOf(c, inputs)]) else ""
  {
    hide Next, NextPast, After, EndsWith;
    if inputs != [] {
      var before, e := inputs[..|inputs| - 1], inputs[|inputs| - 1];
      ReceivedUntilEnd(c, before);
      assert inputs == before + [e];
      PastGrows(c, before, e);
      if c.spawned {
        OverIff(c, before);
        WrittenGrows(c, before, e);
      }
    }
  }

  lemma OverIff(c: Config, inputs: seq<Input>)
    requires c.spawned
    ensures After(c, inputs).callbackDone <==> EndOf(c, inputs) < |inputs|
    ensures EndOf(c, inputs) == |inputs| ==> !Ready(inputs) && After(c, inputs).stderr == ErrOf(c.maxOutput, inputs)
  {
    RunIsTracked(c, inputs);
  }

  lemma WrittenGrows(c: Config, before: seq<Input>, e: Input)
    requires EndOf(c, before) == |before| ==> !Ready(before)
    ensures OutOf((before + [e])[..EndOf(c, before + [e])]) ==
            OutOf(before[..EndOf(c, before)]) + if e.StdoutChunk? && EndOf(c, before) == |before| then e.data else ""
  {
    var d := EndOf(c, before);
    EndOfGrows(c, before, e);
    assert OutOf(before[..d]) + "" == OutOf(before[..d]);
    assert (before + [e])[..d] == before[..d];
    if d == |before| {
      ChunkIsNoEnd(c, before, e);
      assert before[..d] == before && (before + [e])[..d + 1] == before + [e];
    }
  }

  lemma PastGrows(c: Config, before: seq<Input>, e: Input)
    ensures PastAfter(c, before + [e]).received == PastAfter(c, before).received +
            if e.StdoutChunk? && c.spawned && !After(c, before).callbackDone then e.data else ""
  {
    hide Next, EndOf;
    var p := PastAfter(c, before);
    assert (before + [e])[..|before|] == before;
    assert p.received + "" == p.received;
  }

  lemma ChunkIsNoEnd(c: Config, before: seq<Input>, e: Input)
    requires !Ready(before)
    ensures e.StdoutChunk? ==> !EndsWith(c, before, e)
    ensures OutOf(before + [e]) == OutOf(before) + if e.StdoutChunk? then e.data else ""
  {
    Appended(before, e);
    assert OutOf(before) + "" == OutOf(before);
  }

  /** Nothing is lost, repeated or reordered: while a job runs, what it streamed and what it still buffers are the first
      characters written; when it is over, exactly one event says so, with its outcome, after exactly the first
      characters of everything written until then. */
  lemma StreamIsConserved(c: Config, inputs: seq<Input>)
    requires c.isJob
    ensures var s, log := After(c, inputs), After(c, inputs).updates.log;
            var written := if c.spawned then OutOf(inputs[..EndOf(c, inputs)]) else "";
            if s.calls == [] then NoneFinished(log) && StdoutOf(log) + s.bufOut == Limit(written, c.maxOutput)
            else
              && |s.calls| == 1 && OneFinished(log) && log[FinishedAt(log)].entry == EntryFor(c.texts, s.calls[0])
              && StdoutOf(log[..FinishedAt(log)]) == Limit(written, c.maxOutput)
  {
    RunIsOk(c, inputs);
    ReceivedUntilEnd(c, inputs);
  }

  /** Everything the process wrote to stderr. */
  function ErrWritten(inputs: seq<Input>): string {
    if inputs == [] then ""
    else
      var e := inputs[|inputs| - 1];
      ErrWritten(inputs[..|inputs| - 1]) + if e.StderrChunk? then e.data else ""
  }

  /** What is accepted of it for streaming: the part of each chunk that fits what is kept of stderr, errors included. */
  function AcceptedErr(max: Option<nat>, inputs: seq<Input>): string {
    if inputs == [] then ""
    else
      var before, e := inputs[..|inputs| - 1], inputs[|inputs| - 1];
      AcceptedErr(max, before) + if e.StderrChunk? then Fitting(ErrOf(max, before), e.data, max) else ""
  }

  /** The texts of errors, which are kept but never streamed. */
  function ErrorTexts(inputs: seq<Input>): nat {
    if inputs == [] then 0
    else
      var e := inputs[|inputs| - 1];
      ErrorTexts(inputs[..|inputs| - 1]) + if e.Failure? then |e.text| else 0
  }

  /** Without error texts what is accepted is what is kept: the first characters written. */
  lemma {:induction false} AcceptedIsKept(max: Option<nat>, inputs: seq<Input>)
    ensures |ErrOf(max, inputs)| == |AcceptedErr(max, inputs)| + ErrorTexts(inputs)
    ensures ErrorTexts(inputs) == 0 ==> AcceptedErr(max, inputs) == ErrOf(max, inputs) == Limit(ErrWritten(inputs), max)
  {
    if inputs != [] {
      var before, e := inputs[..|inputs| - 1], inputs[|inputs| - 1];
      AcceptedIsKept(max, before);
      if e.StderrChunk? {
        if ErrorTexts(before) == 0 { FittingLimits(ErrOf(max, before), e.data, max, ErrWritten(before)); }
      } else {
        assert ErrWritten(before) + "" == ErrWritten(before) && AcceptedErr(max, before) + "" == AcceptedErr(max, before);
        assert e.Failure? && e.text == "" ==> ErrOf(max, before) + e.text == ErrOf(max, before);
      }
    }
  }

  lemma {:induction false} AcceptedUntilEnd(c: Config, inputs: seq<Input>)
    ensures PastAfter(c, inputs).acceptedErr == if c.spawned then AcceptedErr(c.maxOutput, inputs[..EndOf(c, inputs)]) else ""
  {
    hide Next, NextPast, After, EndsWith;
    if inputs != [] {
      var before, e := inputs[..|inputs| - 1], inputs[|inputs| - 1];
      AcceptedUntilEnd(c, before);
      assert inputs == before + [e];
      if c.spawned { OverIff(c, before); }
      AcceptedGrows(c, before, e);
      if c.spawned { AcceptedTextGrows(c, before, e); }
    }
  }

  lemma AcceptedGrows(c: Config, before: seq<Input>, e: Input)
    ensures var s, p := After(c, before), PastAfter(c, before);
            PastAfter(c, before + [e]).acceptedErr ==
            p.acceptedErr + if e.StderrChunk? && c.spawned && !s.callbackDone then Fitting(s.stderr, e.data, c.maxOutput) else ""
  {
    hide Next, EndOf;
    var p := PastAfter(c, before);
    assert (before + [e])[..|before|] == before;
    assert p.acceptedErr + "" == p.acceptedErr;
  }

  lemma AcceptedTextGrows(c: Config, before: seq<Input>, e: Input)
    requires EndOf(c, before) == |before| ==> !Ready(before)
    ensures AcceptedErr(c.maxOutput, (before + [e])[..EndOf(c, before + [e])]) ==
            AcceptedErr(c.maxOutput, before[..EndOf(c, before)]) +
            if e.StderrChunk? && EndOf(c, before) == |before| then Fitting(ErrOf(c.maxOutput, before), e.data, c.maxOutput) else ""
  {
    var d := EndOf(c, before);
    EndOfGrows(c, before, e);
    AcceptedAppend(c.maxOutput, before, e);
    assert AcceptedErr(c.maxOutput, before[..d]) + "" == AcceptedErr(c.maxOutput, before[..d]);
    assert (before + [e])[..d] == before[..d];
    if d == |before| {
      assert before[..d] == before && (before + [e])[..d + 1] == before + [e];
      if e.StderrChunk? { ErrChunkIsNoEnd(c, before, e); }
    }
  }

  lemma AcceptedAppend(max: Option<nat>, before: seq<Input>, e: Input)
    ensures AcceptedErr(max, before + [e]) ==
            AcceptedErr(max, before) + if e.StderrChunk? then Fitting(ErrOf(max, before), e.data, max) else ""
  {
    assert (before + [e])[..|before|] == before;
  }

  lemma ErrChunkIsNoEnd(c: Config, before: seq<Input>, e: Input)
    requires !Ready(before) && e.StderrChunk?
    ensures !EndsWith(c, before, e)
  {
    Appended(before, e);
  }

  /** Of stderr, what is streamed until the end is exactly what was accepted. */
  lemma StderrIsConserved(c: Config, inputs: seq<Input>)
    requires c.isJob
    ensures var s, log := After(c, inputs), After(c, inputs).updates.log;
            var accepted := if c.spawned then AcceptedErr(c.maxOutput, inputs[..EndOf(c, inputs)]) else "";
            if s.calls == [] then StderrOf(log) + s.bufErr == accepted
            else OneFinished(log) && StderrOf(log[..FinishedAt(log)]) == accepted
  {
    RunIsOk(c, inputs);
    AcceptedUntilEnd(c, inputs);
  }

  /** That is all that was kept, and so the first characters written, if and only if no error with a text was reported. */
  lemma StderrIsCompleteIff(c: Config, inputs: seq<Input>)
    requires c.spawned && EndOf(c, inputs) < |inputs|
    ensures var d := EndOf(c, inputs);
            var heard, accepted := inputs[..d + 1], AcceptedErr(c.maxOutput, inputs[..d]);
            && (accepted == ErrOf(c.maxOutput, heard) <==> ErrorTexts(heard) == 0)
            && (ErrorTexts(heard) == 0 ==> accepted == Limit(ErrWritten(heard), c.maxOutput))
  {
    hide EndOf, ErrOf, Limit;
    var d := EndOf(c, inputs);
    var before, e := inputs[..d], inputs[d];
    RunningUntil(c, inputs, d);
    if e.StderrChunk? { ErrChunkIsNoEnd(c, before, e); }
    assert inputs[..d + 1][..d] == before;
    assert AcceptedErr(c.maxOutput, before) + "" == AcceptedErr(c.maxOutput, before);
    AcceptedIsKept(c.maxOutput, inputs[..d + 1]);
  }

  // ----- what a job reports -----

  /** Event i is the last exit. */
  predicate LastExit(inputs: seq<Input>, i: nat) {
    i < |inputs| && inputs[i].Exit? && forall j :: i < j < |inputs| ==> !inputs[j].Exit?
  }

  /** The exit code is that of the last exit, where none counts as 0. */
  lemma {:induction false} CodeIsOfLastExit(inputs: seq<Input>, i: nat)
    requires LastExit(inputs, i)
    ensures CodeOf(inputs) == Some(if inputs[i].code.Some? then inputs[i].code.value else 0)
  {
    if i < |inputs| - 1 {
      var before, e := inputs[..|inputs| - 1], inputs[|inputs| - 1];
      assert LastExit(before, i) && !e.Exit?;
      CodeIsOfLastExit(before, i);
    }
  }

  /** Without an exit it is 1 after an error. */
  lemma {:induction false} CodeWithoutExit(inputs: seq<Input>)
    requires forall e :: e in inputs ==> !e.Exit?
    ensures CodeOf(inputs) == if HasFailure(inputs) then Some(1) else None
  {
    if inputs != [] {
      var before, e := inputs[..|inputs| - 1], inputs[|inputs| - 1];
      assert inputs == before + [e];
      Appended(before, e);
      CodeWithoutExit(before);
    }
  }

  /** What is reported of an output: what was kept, and a note exactly if that reached the limit. */
  predicate Reports(c: Config, kept: string, reported: string) {
    reported == if c.maxOutput.Some? && |kept| >= c.maxOutput.value then kept + c.texts.truncated else kept
  }

  /** The call of a job that ended with these events, in terms of what they are. */
  ghost predicate CallOf(c: Config, heard: seq<Input>, call: Call)
    requires heard != []
  {
    var out, err, code := TimesOut(heard[|heard| - 1]), ErrOf(c.maxOutput, heard), CodeOf(heard);
    && (call.err.None? <==> !out && !HasFailure(heard) && (c.errOnExit ==> code == Some(0)))
    && (call.err.None? <==> call.result.Some?)
    && (call.result.Some? ==>
          && Reports(c, Limit(OutOf(heard), c.maxOutput), call.result.value.stdout)
          && Reports(c, Limit(ErrWritten(heard), c.maxOutput), call.result.value.stderr)
          && code == Some(call.result.value.exitCode))
    && (call.err.Some? ==>
          call.err.value ==
          if out then c.texts.timedOut
          else if !c.errOnExit || code == Some(0) then c.texts.notRun + err
          else if c.isJob then err else c.texts.exitedNonzero + err)
  }

  lemma OrdinaryIsCallOf(c: Config, heard: seq<Input>)
    requires heard != [] && (TimesOut(heard[|heard| - 1]) || CodeOf(heard).Some?)
    requires !HasFailure(heard) ==> ErrOf(c.maxOutput, heard) == Limit(ErrWritten(heard), c.maxOutput)
    ensures CallOf(c, heard, OutcomeOf(c, heard))
  {
    hide HasFailure, CodeOf, ErrOf, OutOf, ErrWritten, Limit;
  }

  /** A job that ends without the timeout has an exit code. */
  lemma EndHasCode(c: Config, inputs: seq<Input>)
    requires c.spawned && EndOf(c, inputs) < |inputs| && !TimesOut(inputs[EndOf(c, inputs)])
    ensures CodeOf(inputs[..EndOf(c, inputs) + 1]).Some?
  {
    hide After, Tracks, EndsWith, CodeOf, TimesOut, EndOf;
    var d := EndOf(c, inputs);
    var before, e := inputs[..d], inputs[d];
    assert inputs[..d + 1] == before + [e];
    EndIsFirst(c, inputs, d);
    RunIsTracked(c, before);
    ForcedHasCode(c, before, e);
  }

  lemma ForcedHasCode(c: Config, before: seq<Input>, e: Input)
    requires Tracks(c, before, After(c, before)) && EndsWith(c, before, e) && !TimesOut(e)
    ensures CodeOf(before + [e]).Some?
  {
    hide After, OutOf, ErrOf, ShownErr, HasFailure;
    assert (before + [e])[..|before|] == before;
  }

  lemma {:induction false} NoErrorTexts(inputs: seq<Input>)
    requires !HasFailure(inputs)
    ensures ErrorTexts(inputs) == 0
  {
    if inputs != [] {
      var before, e := inputs[..|inputs| - 1], inputs[|inputs| - 1];
      assert inputs == before + [e] && e in inputs;
      Appended(before, e);
      NoErrorTexts(before);
    }
  }

  /** In every run the one call of a job that has ended carries what the process wrote until then: its first characters,
      with a note if the limit was reached, and its exit code; or the error that the events prescribe. */
  lemma ResultIsTheOutput(c: Config, inputs: seq<Input>)
    requires c.spawned && EndOf(c, inputs) < |inputs|
    ensures var calls := After(c, inputs).calls;
            |calls| == 1 && CallOf(c, inputs[..EndOf(c, inputs) + 1], calls[0])
  {
    hide After, CallOf, OutcomeOf;
    var d := EndOf(c, inputs);
    var heard := inputs[..d + 1];
    CallbackFires(c, inputs);
    if !TimesOut(inputs[d]) { EndHasCode(c, inputs); }
    if !HasFailure(heard) {
      NoErrorTexts(heard);
      AcceptedIsKept(c.maxOutput, heard);
    }
    OrdinaryIsCallOf(c, heard);
  }

  /** What a job shows at the moment at which it ends is its call: the three parts of the result, or the error. */
  lemma CacheIsTheResult(c: Config, inputs: seq<Input>)
    requires c.spawned && c.isJob && EndOf(c, inputs) + 1 == |inputs|
    ensures var s := After(c, inputs);
            && |s.calls| == 1 && OneFinished(s.updates.log) && s.updates.log[FinishedAt(s.updates.log)].entry == s.cache
            && s.cache == match s.calls[0]
                          case Call(None, Some(r)) => Entry(Completed, r.stdout, r.stderr, r.exitCode)
                          case Call(Some(err), _) => Entry(Error, "", if err == "" then c.texts.noResult else err, 1)
                          case Call(None, None) => Entry(Error, "", c.texts.noResult, 1)
  {
    var before, e := inputs[..|inputs| - 1], inputs[|inputs| - 1];
    assert inputs == before + [e];
    EndIsFirst(c, inputs, |before|);
    RunIsTracked(c, before);
    EventAdvances(c, before, After(c, before), e);
    OneMoreEvent(c, before, e);
    StreamIsConserved(c, inputs);
    ResultIsTheOutput(c, inputs);
  }

  /** While a job runs, what it shows to whoever joins is the first characters of both outputs; only the texts of errors
      reported since the last chunk of stderr are missing. */
  lemma CacheIsTheOutput(c: Config, inputs: seq<Input>)
    requires c.spawned && c.isJob && EndOf(c, inputs) == |inputs|
    ensures After(c, inputs).cache ==
            Entry(Running, Limit(OutOf(inputs), c.maxOutput), ShownErr(c.maxOutput, inputs), 0)
    ensures !HasFailure(inputs) ==> ShownErr(c.maxOutput, inputs) == Limit(ErrWritten(inputs), c.maxOutput)
  {
    RunIsTracked(c, inputs);
    if !HasFailure(inputs) {
      NoErrorTexts(inputs);
      AcceptedIsKept(c.maxOutput, inputs);
      ShownIsKept(c.maxOutput, inputs);
    }
  }

  lemma {:induction false} ShownIsKept(max: Option<nat>, inputs: seq<Input>)
    requires !HasFailure(inputs)
    ensures ShownErr(max, inputs) == ErrOf(max, inputs)
  {
    if inputs != [] {
      var before, e := inputs[..|inputs| - 1], inputs[|inputs| - 1];
      assert inputs == before + [e] && e in inputs;
      Appended(before, e);
      ShownIsKept(max, before);
    }
  }

  // ----- what the listeners were sent -----

  /** The moments at which listeners join. */
  function JoinTimes(inputs: seq<Input>): (ts: seq<nat>)
    ensures forall i :: 0 <= i < |ts| ==> ts[i] < |inputs| && inputs[ts[i]] == Joins
  {
    if inputs == [] then []
    else
      var n := |inputs| - 1;
      JoinTimes(inputs[..n]) + if inputs[n] == Joins then [n] else []
  }

  /** An error of the child process was reported before the listener joined. */
  predicate Erred(c: Config, before: seq<Input>) {
    c.spawned && HasFailure(before)
  }

  /** How a listener joins after these events. */
  function JoiningAfter(c: Config, before: seq<Input>): Joining {
    var s := After(c, before);
    Joining(|s.updates.log|, s.cache, s.bufOut, if Erred(c, before) then None else Some(s.bufErr))
  }

  lemma {:induction false} ErrorIsRecorded(c: Config, inputs: seq<Input>)
    ensures PastAfter(c, inputs).errored <==> Erred(c, inputs)
  {
    if inputs != [] {
      var before, e := inputs[..|inputs| - 1], inputs[|inputs| - 1];
      ErrorIsRecorded(c, before);
      assert inputs == before + [e];
      Appended(before, e);
      ErrorGrows(c, After(c, before), PastAfter(c, before), e);
    }
  }

  lemma ErrorGrows(c: Config, s: State, p: Past, e: Input)
    ensures NextPast(c, s, p, e).errored <==> p.errored || (c.spawned && e.Failure?)
  {
  }

  lemma {:induction false} JoiningsAreRecorded(c: Config, inputs: seq<Input>)
    requires c.isJob
    ensures var js, ts := PastAfter(c, inputs).joinings, JoinTimes(inputs);
            |js| == |ts| && forall i :: 0 <= i < |ts| ==> js[i] == JoiningAfter(c, inputs[..ts[i]])
  {
    hide Next, NextPast, JoiningAfter;
    if inputs != [] {
      var n := |inputs| - 1;
      var before := inputs[..n];
      JoiningsAreRecorded(c, before);
      var ts := JoinTimes(before);
      forall i | 0 <= i < |ts| ensures inputs[..ts[i]] == before[..ts[i]] {
      }
      JoiningIsRecorded(c, before, inputs[n]);
    }
  }

  lemma JoiningIsRecorded(c: Config, before: seq<Input>, e: Input)
    requires c.isJob
    ensures NextPast(c, After(c, before), PastAfter(c, before), e).joinings ==
            PastAfter(c, before).joinings + if e == Joins then [JoiningAfter(c, before)] else []
  {
    hide After, PastAfter, HasFailure;
    ErrorIsRecorded(c, before);
  }

  /** A listener that joined after these events was sent the snapshot of that moment, and then what the protocol promises;
      the overlap is what was buffered at that moment. */
  ghost predicate ServedSince(l: Listener, c: Config, before: seq<Input>, log: seq<Event>)
    requires OneFinished(log)
  {
    var f, at := FinishedAt(log), After(c, before);
    && l.done && !l.attached && l.seen != [] && l.seen[0] == JobInfo(at.cache)
    && Protocol(l.seen, StreamedIn(log[..f]), |at.bufOut|, if Erred(c, before) then None else Some(|at.bufErr|), log[f].entry)
  }

  /** Every listener that ever joined, early or late, is sent everything as long as the job runs, and is served in full
      once it is over. */
  lemma ListenersAreServed(c: Config, inputs: seq<Input>)
    requires c.isJob
    ensures var s, ts := After(c, inputs), JoinTimes(inputs);
            && |s.updates.listeners| == |ts|
            && (s.calls == [] ==> forall i :: 0 <= i < |ts| ==>
                  Following(s.updates.listeners[i], JoiningAfter(c, inputs[..ts[i]]), s.updates.log))
            && (s.calls != [] ==>
                  && OneFinished(s.updates.log)
                  && forall i :: 0 <= i < |ts| ==>
                       ServedSince(s.updates.listeners[i], c, inputs[..ts[i]], s.updates.log))
  {
    var s, ts, js := After(c, inputs), JoinTimes(inputs), PastAfter(c, inputs).joinings;
    RunIsOk(c, inputs);
    JoiningsAreRecorded(c, inputs);
    if s.calls != [] {
      var log := s.updates.log;
      forall i | 0 <= i < |ts| ensures ServedSince(s.updates.listeners[i], c, inputs[..ts[i]], log) {
        ServedMeansProtocol(s.updates.listeners[i], js[i], log, FinishedAt(log));
      }
    }
  }

  /** For every interleaving: the job calls back at most once, at the event and with the outcome that the sequence
      designates; what it streams before the one `finished` event is what was written until then, up to the limit;
      and each listener that joined was sent the snapshot of that moment and everything that the protocol promises. */
  method RunJob(c: Config, inputs: seq<Input>)
    returns (calls: seq<Call>, cache: Entry, log: seq<Event>, listeners: seq<Listener>)
    ensures calls == After(c, inputs).calls && cache == After(c, inputs).cache
    ensures Channel(log, listeners) == After(c, inputs).updates
    ensures c.spawned ==> calls == if EndOf(c, inputs) == |inputs| then [] else [OutcomeOf(c, inputs[..EndOf(c, inputs) + 1])]
    ensures c.spawned && calls != [] ==> CallOf(c, inputs[..EndOf(c, inputs) + 1], calls[0])
    ensures c.isJob && calls != [] ==>
              && OneFinished(log) && log[FinishedAt(log)].entry == EntryFor(c.texts, calls[0])
              && StdoutOf(log[..FinishedAt(log)]) == Limit(if c.spawned then OutOf(inputs[..EndOf(c, inputs)]) else "", c.maxOutput)
              && |listeners| == |JoinTimes(inputs)|
              && forall i :: 0 <= i < |listeners| ==> ServedSince(listeners[i], c, inputs[..JoinTimes(inputs)[i]], log)
  {
    hide CallOf, OutcomeOf, ServedSince, StdoutOf, Next;
    var job := new Job(c);
    for i := 0 to |inputs|
      invariant fresh(job) && job.Valid() && job.config == c
      invariant job.View() == After(c, inputs[..i])
    {
      assert inputs[..i + 1][..i] == inputs[..i];
      job.Take(inputs[i]);
    }
    assert inputs[..|inputs|] == inputs;
    calls, cache, log, listeners := job.calls, job.cache, job.log, job.listeners;
    CallbackFires(c, inputs);
    if c.spawned && EndOf(c, inputs) < |inputs| { ResultIsTheOutput(c, inputs); }
    if c.isJob {
      StreamIsConserved(c, inputs);
      ListenersAreServed(c, inputs);
    }
  }

  // ----- two runs -----

  lemma Follow(c: Config, before: seq<Input>, e: Input, s: State)
    requires After(c, before) == s
    ensures After(c, before + [e]) == Next(c, s, e)
  {
    OneMoreEvent(c, before, e);
  }

  lemma ExitWaits(c: Config)
    requires c.spawned
    ensures Next(c, Started(c), Exit(None)) == Started(c).(exitCode := Some(0))
  {
  }

  lemma KillWaits(c: Config, s: State)
    requires c.spawned && c.isJob && s.killTimer && !s.stdoutDone && !s.callbackDone && s.exitCode.Some? && s.forceTimers == []
    ensures Next(c, s, KillDue(false)) ==
            s.(killTimer := false, killed := true, forceTimers := [Some(c.texts.timedOut)])
  {
  }

  lemma HeldJob(c: Config)
    requires c.spawned && c.isJob && c.timeout
    ensures After(c, [Exit(None), KillDue(false)]) ==
            Started(c).(exitCode := Some(0), killTimer := false, killed := true, forceTimers := [Some(c.texts.timedOut)])
  {
    hide Next, EntryFor;
    Follow(c, [], Exit(None), Started(c));
    assert [] + [Exit(None)] == [Exit(None)];
    ExitWaits(c);
    var s := Started(c).(exitCode := Some(0));
    Follow(c, [Exit(None)], KillDue(false), s);
    assert [Exit(None)] + [KillDue(false)] == [Exit(None), KillDue(false)];
    KillWaits(c, s);
  }

  /** The regular end of a job that has said nothing. */
  lemma SilentEnd(c: Config, s: State)
    requires c.isJob && c.maxOutput == None && s.ranCode && s.exitCode == Some(0) && s.calls == []
    requires s.stdout == "" && s.stderr == ""
    ensures var s' := Ended(c, s, None);
            && s'.killed == s.killed && s'.calls == [Call(None, Some(Result("", "", 0)))]
            && s'.cache == Entry(Completed, "", "", 0)
  {
  }

  /** A process dies of a signal while a grandchild keeps the pipes open; the kill timer finds no exit code at the child
      and asks for a forced completion; then the pipes close. The job was killed and is recorded as completed with code 0. */
  lemma KilledJobCanComplete(c: Config)
    requires c.spawned && c.isJob && c.timeout && c.maxOutput == None
    ensures var s := After(c, [Exit(None), KillDue(false), StdoutEnd, StderrEnd]);
            && s.killed && s.calls == [Call(None, Some(Result("", "", 0)))]
            && s.cache == Entry(Completed, "", "", 0)
  {
    HeldJob(c);
    var s := After(c, [Exit(None), KillDue(false)]);
    Follow(c, [Exit(None), KillDue(false)], StdoutEnd, s);
    assert [Exit(None), KillDue(false)] + [StdoutEnd] == [Exit(None), KillDue(false), StdoutEnd];
    var s' := s.(stdoutDone := true, forceTimers := s.forceTimers + [None]);
    assert Next(c, s, StdoutEnd) == s';
    Follow(c, [Exit(None), KillDue(false), StdoutEnd], StderrEnd, s');
    assert [Exit(None), KillDue(false), StdoutEnd] + [StderrEnd] == [Exit(None), KillDue(false), StdoutEnd, StderrEnd];
    assert Next(c, s', StderrEnd) == Ended(c, s'.(stderrDone := true), None);
    SilentEnd(c, s'.(stderrDone := true));
  }

  lemma JoinedBeforeTick(c: Config)
    requires c.spawned && c.isJob && c.maxOutput == None
    ensures var entry := Entry(Running, "a", "", 0);
            After(c, [StdoutChunk("a"), Joins]) ==
            Started(c).(stdout := "a", bufOut := "a", cache := entry,
                        updates := Channel([], [Listener([JobInfo(entry)], false, true)]))
  {
    var s0 := Started(c);
    Follow(c, [], StdoutChunk("a"), s0);
    assert "" + "a" == "a" && [] + [StdoutChunk("a")] == [StdoutChunk("a")];
    var s1 := s0.(stdout := "a", bufOut := "a", cache := Entry(Running, "a", "", 0));
    assert Next(c, s0, StdoutChunk("a")) == s1;
    Follow(c, [StdoutChunk("a")], Joins, s1);
    assert [StdoutChunk("a")] + [Joins] == [StdoutChunk("a"), Joins];
  }

  /** A listener that joins before the first tick has the output in its snapshot, and is sent it again. */
  lemma SnapshotCanOverlap(c: Config)
    requires c.spawned && c.isJob && c.maxOutput == None
    ensures var s := After(c, [StdoutChunk("a"), Joins, Tick]);
            && s.updates.log == [Stdout("a")]
            && s.updates.listeners == [Listener([JobInfo(Entry(Running, "a", "", 0)), Output(Stdout("a"))], false, true)]
  {
    JoinedBeforeTick(c);
    var s := After(c, [StdoutChunk("a"), Joins]);
    Follow(c, [StdoutChunk("a"), Joins], Tick, s);
    assert [StdoutChunk("a"), Joins] + [Tick] == [StdoutChunk("a"), Joins, Tick];
    var ch := Emitted(s.updates, Stdout("a"));
    assert Sent(s).updates == ch;
    assert ch.log == [Stdout("a")];
    assert ch.listeners == [Deliver(s.updates.listeners[0], Stdout("a"))];
    assert [JobInfo(s.cache)] + [Output(Stdout("a"))] == [JobInfo(s.cache), Output(Stdout("a"))];
  }
}
