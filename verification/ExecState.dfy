/** One subprocess job as a value: the closure state of `doSpawn`, what each event makes of it, and the listeners
    that follow its output through the `updates` emitter. */
module ExecState {
  import opened Options

  datatype Status = Running | Error | Completed

  /** The cached view of a job. */
  datatype Entry = Entry(status: Status, stdout: string, stderr: string, exitCode: int)

  datatype Event = Stdout(data: string) | Stderr(data: string) | Stats(sample: int) | Finished(entry: Entry)

  /** What one stream consumer is sent; End is the final null. */
  datatype Message = JobInfo(entry: Entry) | Output(event: Event) | Done(entry: Entry) | End

  datatype Listener = Listener(seen: seq<Message>, done: bool, attached: bool)

  /** The `updates` emitter: what it has emitted for this job, and who listens. */
  datatype Channel = Channel(log: seq<Event>, listeners: seq<Listener>)

  datatype Result = Result(stdout: string, stderr: string, exitCode: int)

  /** The arguments of one call of the callback. */
  datatype Call = Call(err: Option<string>, result: Option<Result>)

  /** The wording of the messages, which depends on the command line and is never empty. */
  datatype Texts = Texts(notSpawned: string, timedOut: string, exitedNonzero: string, notRun: string, noResult: string,
                         truncated: string) {
    predicate Worded() {
      notSpawned != "" && timedOut != "" && exitedNonzero != "" && notRun != "" && noResult != "" && truncated != ""
    }
  }

  /** How a job was started; isJob: with async_call, so that it has a job id. */
  datatype Config = Config(texts: Texts, isJob: bool, maxOutput: Option<nat>, errOnExit: bool, timeout: bool, spawned: bool)

  /** Everything that can happen to a job. `exited` is what the child process reports when the kill timer fires;
      `which` counts the forced completions that are pending. */
  datatype Input =
    | StdoutChunk(data: string) | StderrChunk(data: string)
    | StdoutEnd | StderrEnd
    | Exit(code: Option<int>) | Failure(text: string)
    | KillDue(exited: bool) | ForceDue(which: nat) | Tick
    | Sample(sample: int) | Joins

  datatype State = State(
    ranCode: bool,
    stdout: string,
    stderr: string,
    exitCode: Option<int>,
    stdoutDone: bool,
    stderrDone: bool,
    killed: bool,
    callbackDone: bool,
    killTimer: bool,                   // armed
    batchTimer: bool,                  // ticking
    forceTimers: seq<Option<string>>,  // pending forced completions, with the error each will report
    bufOut: string,
    bufErr: string,
    cache: Entry,
    calls: seq<Call>,
    updates: Channel)

  // ----- strings and logs -----

  /** Output beyond the limit is dropped. */
  function Limit(s: string, max: Option<nat>): (r: string)
    ensures r <= s && |r| == if max.Some? && |s| > max.value then max.value else |s|
  {
    if max.Some? && |s| > max.value then s[..max.value] else s
  }

  /** The part of a chunk that still fits. */
  function Fitting(kept: string, data: string, max: Option<nat>): (r: string)
    ensures r <= data
    ensures max.Some? && |kept| <= max.value ==> |kept + r| <= max.value
    ensures r != data ==> max.Some? && |kept + r| >= max.value
  {
    if max.None? then data
    else if |kept| < max.value then Limit(data, Some(max.value - |kept|))
    else ""
  }

  /** Cutting chunk by chunk is cutting the whole, however it was split. */
  lemma FittingLimits(kept: string, data: string, max: Option<nat>, whole: string)
    requires kept == Limit(whole, max)
    ensures kept + Fitting(kept, data, max) == Limit(whole + data, max)
  {
  }

  function StdoutOf(log: seq<Event>): string {
    if log == [] then ""
    else
      var e := log[|log| - 1];
      StdoutOf(log[..|log| - 1]) + if e.Stdout? then e.data else ""
  }

  function StderrOf(log: seq<Event>): string {
    if log == [] then ""
    else
      var e := log[|log| - 1];
      StderrOf(log[..|log| - 1]) + if e.Stderr? then e.data else ""
  }

  function Outputs(log: seq<Event>): seq<Message> {
    seq(|log|, i requires 0 <= i < |log| => Output(log[i]))
  }

  lemma {:induction false} StdoutOfConcat(a: seq<Event>, b: seq<Event>)
    ensures StdoutOf(a + b) == StdoutOf(a) + StdoutOf(b)
  {
    if b == [] {
      assert a + b == a;
    } else {
      var n := |b| - 1;
      StdoutOfConcat(a, b[..n]);
      assert (a + b)[..|a + b| - 1] == a + b[..n];
    }
  }

  lemma {:induction false} StderrOfConcat(a: seq<Event>, b: seq<Event>)
    ensures StderrOf(a + b) == StderrOf(a) + StderrOf(b)
  {
    if b == [] {
      assert a + b == a;
    } else {
      var n := |b| - 1;
      StderrOfConcat(a, b[..n]);
      assert (a + b)[..|a + b| - 1] == a + b[..n];
    }
  }

  lemma StdoutOfAppend(log: seq<Event>, e: Event)
    ensures StdoutOf(log + [e]) == StdoutOf(log) + if e.Stdout? then e.data else ""
    ensures StderrOf(log + [e]) == StderrOf(log) + if e.Stderr? then e.data else ""
  {
    assert (log + [e])[..|log|] == log;
  }

  lemma Associate(a: string, b: string, c: string)
    ensures a + (b + c) == a + b + c
  {
  }

  /** The index of the last `finished` event. */
  function FinishedAt(log: seq<Event>): (f: nat)
    ensures forall i :: f < i < |log| ==> !log[i].Finished?
    ensures (exists i :: 0 <= i < |log| && log[i].Finished?) ==> f < |log| && log[f].Finished?
  {
    if log == [] then 0
    else if log[|log| - 1].Finished? then |log| - 1
    else FinishedAt(log[..|log| - 1])
  }

  /** Exactly one event says that the job is over. */
  predicate OneFinished(log: seq<Event>) {
    var f := FinishedAt(log);
    f < |log| && log[f].Finished? && forall i :: 0 <= i < |log| && i != f ==> !log[i].Finished?
  }

  predicate NoneFinished(log: seq<Event>) {
    forall i :: 0 <= i < |log| ==> !log[i].Finished?
  }

  lemma FinishedStaysAt(log: seq<Event>, e: Event)
    requires OneFinished(log) && !e.Finished?
    ensures OneFinished(log + [e]) && FinishedAt(log + [e]) == FinishedAt(log)
    ensures (log + [e])[..FinishedAt(log)] == log[..FinishedAt(log)]
  {
    var f := FinishedAt(log);
    assert (log + [e])[f].Finished? && (log + [e])[|log|] == e;
  }

  // ----- the outcome of a job -----

  /** Which error or result the callback gets. */
  function CallFor(c: Config, err: Option<string>, ranCode: bool, stdout: string, stderr: string, exitCode: Option<int>): Call {
    if err.Some? then Call(err, None)
    else if c.errOnExit && exitCode != Some(0) then
      Call(Some(if c.isJob then stderr else c.texts.exitedNonzero + stderr), None)
    else if !ranCode then Call(Some(c.texts.notRun + stderr), None)
    else
      Call(None, Some(Result(Noted(c, stdout), Noted(c, stderr), if exitCode.Some? then exitCode.value else 1)))
  }

  function Noted(c: Config, s: string): string {
    if c.maxOutput.Some? && |s| >= c.maxOutput.value then s + c.texts.truncated else s
  }

  /** The cache entry that the asynchronous callback stores; an empty error string counts as no error. */
  function EntryFor(t: Texts, call: Call): Entry {
    if call.err.Some? && call.err.value != "" then Entry(Error, "", call.err.value, 1)
    else if call.result.Some? then
      Entry(Completed, call.result.value.stdout, call.result.value.stderr, call.result.value.exitCode)
    else Entry(Error, "", t.noResult, 1)
  }

  // ----- listeners -----

  /** Where in the log a listener joined, the entry it was sent first, and the output then still buffered; of stderr only
      if no error had been reported. */
  datatype Joining = Joining(at: nat, entry: Entry, lag: string, lagErr: Option<string>)

  /** The snapshot has what had been streamed at the join and what was then buffered. */
  predicate Shows(j: Joining, log: seq<Event>)
    requires j.at <= |log|
  {
    && j.entry.status == Running
    && j.entry.stdout == StdoutOf(log[..j.at]) + j.lag
    && (j.lagErr.Some? ==> j.entry.stderr == StderrOf(log[..j.at]) + j.lagErr.value)
  }

  function Deliver(l: Listener, e: Event): Listener {
    if !l.attached then l
    else if e.Finished? then
      if l.done then l.(attached := false)
      else Listener(l.seen + [Done(e.entry), End], true, false)
    else if l.done then l
    else l.(seen := l.seen + [Output(e)])
  }

  function DeliverAll(ls: seq<Listener>, e: Event): seq<Listener> {
    seq(|ls|, i requires 0 <= i < |ls| => Deliver(ls[i], e))
  }

  /** The listener has seen all output since it joined. */
  ghost predicate Following(l: Listener, j: Joining, log: seq<Event>) {
    && l.attached && !l.done
    && j.at <= |log| && Shows(j, log)
    && l.seen == [JobInfo(j.entry)] + Outputs(log[j.at..])
  }

  /** The listener has seen all output since it joined, then the end of the job at index f, and nothing after it. */
  ghost predicate Served(l: Listener, j: Joining, log: seq<Event>, f: nat)
    requires f < |log| && log[f].Finished?
  {
    && l.done && !l.attached
    && if j.at <= f then
         && Shows(j, log)
         && l.seen == [JobInfo(j.entry)] + Outputs(log[j.at..f]) + [Done(log[f].entry), End]
       else
         j.entry.status != Running && l.seen == [JobInfo(j.entry), Done(j.entry), End]
  }

  lemma FollowingContinues(l: Listener, j: Joining, log: seq<Event>, e: Event)
    requires Following(l, j, log) && !e.Finished?
    ensures Following(Deliver(l, e), j, log + [e])
  {
    assert (log + [e])[..j.at] == log[..j.at];
    assert (log + [e])[j.at..] == log[j.at..] + [e];
    assert Outputs(log[j.at..] + [e]) == Outputs(log[j.at..]) + [Output(e)];
  }

  lemma FollowingEnds(l: Listener, j: Joining, log: seq<Event>, entry: Entry)
    requires Following(l, j, log)
    ensures Served(Deliver(l, Finished(entry)), j, log + [Finished(entry)], |log|)
  {
    var log' := log + [Finished(entry)];
    assert log'[..j.at] == log[..j.at] && log'[j.at..|log|] == log[j.at..];
  }

  lemma ServedStays(l: Listener, j: Joining, log: seq<Event>, f: nat, e: Event)
    requires f < |log| && log[f].Finished? && Served(l, j, log, f)
    ensures Deliver(l, e) == l && Served(l, j, log + [e], f)
  {
    if j.at <= f {
      assert (log + [e])[..j.at] == log[..j.at] && (log + [e])[j.at..f] == log[j.at..f];
    }
  }

  /** What a consumer may rely on, in its own terms: one job message, then output, then one done message and one null.
      If it joined while the job ran, its snapshot without the last k characters, followed by the output it was sent, is
      everything that was streamed, and it is told how the job ended; if it joined later, its snapshot says so already.
      For stderr this holds if no error had been reported when it joined; else there is no such number. */
  ghost predicate Protocol(seen: seq<Message>, streamed: Streamed, k: nat, kErr: Option<nat>, final: Entry) {
    exists sent: seq<Event> :: ProtocolWith(seen, streamed, k, kErr, final, sent)
  }

  datatype Streamed = Streamed(stdout: string, stderr: string)

  function StreamedIn(log: seq<Event>): Streamed {
    Streamed(StdoutOf(log), StderrOf(log))
  }

  /** A text without its last k characters, followed by another, is the whole. */
  predicate Fits(text: string, k: nat, more: string, whole: string) {
    k <= |text| && text[..|text| - k] + more == whole
  }

  ghost predicate ProtocolWith(seen: seq<Message>, streamed: Streamed, k: nat, kErr: Option<nat>, final: Entry, sent: seq<Event>) {
    && |seen| == |sent| + 3
    && seen[0].JobInfo? && seen[|sent| + 1].Done? && seen[|sent| + 2] == End
    && seen[1..|sent| + 1] == Outputs(sent)
    && (forall e :: e in sent ==> !e.Finished?)
    && var snapshot := seen[0].entry;
       && seen[|sent| + 1].entry == (if snapshot.status == Running then final else snapshot)
       && (snapshot.status != Running ==> sent == [])
       && (snapshot.status == Running ==>
             && Fits(snapshot.stdout, k, StdoutOf(sent), streamed.stdout)
             && (kErr.Some? ==> Fits(snapshot.stderr, kErr.value, StderrOf(sent), streamed.stderr)))
  }

  lemma ServedMeansProtocol(l: Listener, j: Joining, log: seq<Event>, f: nat)
    requires f < |log| && log[f].Finished? && Served(l, j, log, f)
    requires forall i :: 0 <= i < f ==> !log[i].Finished?
    ensures Protocol(l.seen, StreamedIn(log[..f]), |j.lag|, LagOf(j), log[f].entry) && l.seen[0] == JobInfo(j.entry)
  {
    if j.at <= f {
      var sent := log[j.at..f];
      SnapshotFits(j, log, f);
      assert l.seen[1..|sent| + 1] == Outputs(sent);
      assert ProtocolWith(l.seen, StreamedIn(log[..f]), |j.lag|, LagOf(j), log[f].entry, sent);
    } else {
      assert l.seen[1..1] == Outputs([]);
      assert ProtocolWith(l.seen, StreamedIn(log[..f]), |j.lag|, LagOf(j), log[f].entry, []);
    }
  }

  function LagOf(j: Joining): Option<nat> {
    if j.lagErr.Some? then Some(|j.lagErr.value|) else None
  }

  lemma SnapshotFits(j: Joining, log: seq<Event>, f: nat)
    requires j.at <= f <= |log| && Shows(j, log)
    ensures Fits(j.entry.stdout, |j.lag|, StdoutOf(log[j.at..f]), StdoutOf(log[..f]))
    ensures j.lagErr.Some? ==> Fits(j.entry.stderr, |j.lagErr.value|, StderrOf(log[j.at..f]), StderrOf(log[..f]))
  {
    var sent := log[j.at..f];
    assert log[..j.at] + sent == log[..f];
    StdoutOfConcat(log[..j.at], sent);
    StderrOfConcat(log[..j.at], sent);
    WithoutTail(StdoutOf(log[..j.at]), j.lag, j.entry.stdout);
    if j.lagErr.Some? { WithoutTail(StderrOf(log[..j.at]), j.lagErr.value, j.entry.stderr); }
  }

  lemma WithoutTail(a: string, b: string, text: string)
    requires text == a + b
    ensures |b| <= |text| && text[..|text| - |b|] == a
  {
  }

  /** The first snapshot and the later events fit together without overlap exactly if nothing was buffered. */
  lemma SnapshotOverlapsByLag(seen: seq<Message>, streamed: Streamed, k: nat, kErr: Option<nat>, final: Entry, sent: seq<Event>)
    requires ProtocolWith(seen, streamed, k, kErr, final, sent) && seen[0].entry.status == Running
    ensures seen[0].entry.stdout + StdoutOf(sent) == streamed.stdout <==> k == 0
    ensures |seen[0].entry.stdout + StdoutOf(sent)| == |streamed.stdout| + k
    ensures kErr.Some? ==> (seen[0].entry.stderr + StderrOf(sent) == streamed.stderr <==> kErr.value == 0)
    ensures kErr.Some? ==> |seen[0].entry.stderr + StderrOf(sent)| == |streamed.stderr| + kErr.value
  {
    OverlapsByTail(seen[0].entry.stdout, k, StdoutOf(sent), streamed.stdout);
    if kErr.Some? { OverlapsByTail(seen[0].entry.stderr, kErr.value, StderrOf(sent), streamed.stderr); }
  }

  lemma OverlapsByTail(text: string, k: nat, more: string, whole: string)
    requires Fits(text, k, more, whole)
    ensures text + more == whole <==> k == 0
    ensures |text + more| == |whole| + k
  {
    assert k == 0 ==> text[..|text| - k] == text;
  }

  // ----- what an event makes of a job -----

  function Started(c: Config): State {
    var failed := EntryFor(c.texts, Call(Some(c.texts.notSpawned), None));
    State(c.spawned, "", "", None, false, false, false, false,
          c.timeout && c.spawned, c.isJob && c.spawned, [], "", "",
          if c.spawned then Entry(Running, "", "", 0) else failed,
          if c.spawned then [] else [Call(Some(c.texts.notSpawned), None)],
          Channel(if c.spawned || !c.isJob then [] else [Finished(failed)], []))
  }

  function Emitted(ch: Channel, e: Event): Channel {
    Channel(ch.log + [e], DeliverAll(ch.listeners, e))
  }

  function EmittedUnless(ch: Channel, nothing: bool, e: Event): Channel {
    if nothing then ch else Emitted(ch, e)
  }

  /** The buffers go out as events. */
  function Sent(s: State): State {
    var ch := EmittedUnless(s.updates, s.bufOut == "", Stdout(s.bufOut));
    s.(updates := EmittedUnless(ch, s.bufErr == "", Stderr(s.bufErr)), bufOut := "", bufErr := "")
  }

  /** The events of one batch. */
  function Batch(out: string, err: string): seq<Event> {
    (if out == "" then [] else [Stdout(out)]) + (if err == "" then [] else [Stderr(err)])
  }

  function Flushed(s: State): State {
    Sent(s.(batchTimer := false))
  }

  /** Only a job has buffers to flush. */
  function FlushedIf(isJob: bool, s: State): State {
    var s' := Flushed(s);
    s.(batchTimer := s.batchTimer && !isJob,
       updates := if isJob then s'.updates else s.updates,
       bufOut := if isJob then "" else s.bufOut,
       bufErr := if isJob then "" else s.bufErr)
  }

  /** For a job the callback stores the entry and emits `finished` before it returns. */
  function CalledBack(c: Config, s: State, call: Call): State {
    var entry := EntryFor(c.texts, call);
    s.(calls := s.calls + [call],
       cache := if c.isJob then entry else s.cache,
       updates := EmittedUnless(s.updates, !c.isJob, Finished(entry)))
  }

  function Ended(c: Config, s: State, err: Option<string>): State {
    var call := CallFor(c, err, s.ranCode, s.stdout, s.stderr, s.exitCode);
    CalledBack(c, Stopped(FlushedIf(c.isJob, s), call), call)
  }

  /** No timer is left, and a result that is reported is the final word. */
  function Stopped(s: State, call: Call): State {
    var r := call.result;
    s.(callbackDone := true, killTimer := false,
       stdout := if r.Some? then r.value.stdout else s.stdout,
       stderr := if r.Some? then r.value.stderr else s.stderr,
       exitCode := if r.Some? then Some(r.value.exitCode) else s.exitCode)
  }

  /** `finish`: nothing while stdout, stderr or the exit code is missing and the process was not killed;
      a killed job that has an exit code although a pipe is open is given one more second. */
  function Concluded(c: Config, s: State, err: Option<string>): State {
    var closed := s.stdoutDone && s.stderrDone;
    if s.callbackDone || !(s.killed || (closed && s.exitCode.Some?)) then s
    else if c.isJob && s.exitCode.Some? && !closed then s.(forceTimers := s.forceTimers + [err])
    else Ended(c, s, err)
  }

  function WithStdout(c: Config, s: State, newData: string): State {
    var stdout := s.stdout + newData;
    s.(stdout := stdout,
       bufOut := if c.isJob then s.bufOut + newData else s.bufOut,
       cache := if c.isJob then s.cache.(stdout := stdout) else s.cache)
  }

  function WithStderr(c: Config, s: State, newData: string): State {
    var stderr := s.stderr + newData;
    s.(stderr := stderr,
       bufErr := if c.isJob then s.bufErr + newData else s.bufErr,
       cache := if c.isJob then s.cache.(stderr := stderr) else s.cache)
  }

  /** The child process reports an error. Its text goes to stderr without being streamed. */
  function WithFailure(c: Config, s: State, text: string): State {
    FlushedIf(c.isJob, s.(ranCode := false, stderr := s.stderr + text,
                          exitCode := if s.exitCode == None then Some(1) else s.exitCode))
  }

  /** A process that was killed by a signal has no exit code; it counts as 0. */
  function CodeFor(code: Option<int>): int {
    if code.Some? then code.value else 0
  }

  function Joined(s: State): State {
    var listener := if s.cache.status != Running then Listener([JobInfo(s.cache), Done(s.cache), End], true, false)
                    else Listener([JobInfo(s.cache)], false, true);
    s.(updates := s.updates.(listeners := s.updates.listeners + [listener]))
  }

  /** What a process that was spawned does. */
  function Heard(c: Config, s: State, e: Input): State {
    match e
    case StdoutChunk(data) => WithStdout(c, s, Fitting(s.stdout, data, c.maxOutput))
    case StderrChunk(data) => WithStderr(c, s, Fitting(s.stderr, data, c.maxOutput))
    case StdoutEnd => Concluded(c, s.(stdoutDone := true), None)
    case StderrEnd => Concluded(c, s.(stderrDone := true), None)
    case Exit(code) => Concluded(c, s.(exitCode := Some(CodeFor(code))), None)
    case Failure(text) => Concluded(c, WithFailure(c, s, text), None)
    case KillDue(exited) => if s.killTimer then TimedOut(c, s, exited) else s
    case ForceDue(which) => if which < |s.forceTimers| then Forced(c, s, which) else s
    case _ => s
  }

  /** The kill timer fires. */
  function TimedOut(c: Config, s: State, exited: bool): State {
    if exited then s.(killTimer := false)
    else Concluded(c, s.(killTimer := false, killed := true), Some(c.texts.timedOut))
  }

  /** A forced completion is due. */
  function Forced(c: Config, s: State, i: nat): State
    requires i < |s.forceTimers|
  {
    var s' := s.(forceTimers := s.forceTimers[..i] + s.forceTimers[i + 1..]);
    if s.callbackDone then s' else Concluded(c, s'.(stdoutDone := true, stderrDone := true), s.forceTimers[i])
  }

  /** Timers fire only while armed, and a process that was never spawned has no events. */
  function Next(c: Config, s: State, e: Input): State {
    match e
    case Tick => if s.batchTimer then Sent(s) else s
    case Sample(sample) => if c.isJob then s.(updates := Emitted(s.updates, Stats(sample))) else s
    case Joins => if c.isJob then Joined(s) else s
    case _ => if c.spawned then Heard(c, s, e) else s
  }

  // ----- what holds at every moment -----

  /** The output received before the callback, what was accepted of stderr for streaming, whether an error event came,
      and how the listeners joined. */
  datatype Past = Past(received: string, receivedErr: string, acceptedErr: string, errored: bool, joinings: seq<Joining>)

  function NextPast(c: Config, s: State, p: Past, e: Input): Past {
    match e
    case StdoutChunk(data) => if c.spawned && !s.callbackDone then p.(received := p.received + data) else p
    case StderrChunk(data) =>
      if c.spawned && !s.callbackDone then
        p.(receivedErr := p.receivedErr + data, acceptedErr := p.acceptedErr + Fitting(s.stderr, data, c.maxOutput))
      else p
    case Failure(_) => if c.spawned then p.(errored := true) else p
    case Joins =>
      if c.isJob then
        p.(joinings := p.joinings + [Joining(|s.updates.log|, s.cache, s.bufOut, if p.errored then None else Some(s.bufErr))])
      else p
    case _ => p
  }

  /** The job has not finished, and all listeners follow it. */
  ghost predicate Broadcasting(ch: Channel, js: seq<Joining>) {
    && NoneFinished(ch.log)
    && |js| == |ch.listeners|
    && forall i :: 0 <= i < |js| ==> Following(ch.listeners[i], js[i], ch.log)
  }

  /** The job has finished once, with this entry, after this output, and every listener was served. */
  ghost predicate Settled(ch: Channel, js: seq<Joining>, streamed: string, streamedErr: string, final: Entry) {
    && OneFinished(ch.log)
    && var f := FinishedAt(ch.log);
       && StdoutOf(ch.log[..f]) == streamed && StderrOf(ch.log[..f]) == streamedErr && ch.log[f].entry == final
       && |js| == |ch.listeners|
       && forall i :: 0 <= i < |js| ==> Served(ch.listeners[i], js[i], ch.log, f)
  }

  /** What was streamed and what is still buffered make up the output; of stderr, all but the texts of errors. */
  predicate Conserved(s: State, p: Past) {
    && StdoutOf(s.updates.log) + s.bufOut == s.stdout
    && StderrOf(s.updates.log) + s.bufErr == p.acceptedErr
    && (!p.errored ==> p.acceptedErr == s.stderr)
  }

  predicate Over(c: Config, s: State) {
    s.callbackDone || !c.spawned
  }

  /** What holds also inside an event. */
  ghost predicate Consistent(c: Config, s: State, p: Past) {
    && |s.calls| == (if Over(c, s) then 1 else 0)
    && (s.forceTimers != [] ==> c.isJob && s.killed && s.exitCode.Some?)
    && (Over(c, s) ==> !s.batchTimer && !s.killTimer)
    && (!Over(c, s) ==> s.stdout == Limit(p.received, c.maxOutput))
    && (!Over(c, s) && !p.errored ==> s.stderr == Limit(p.receivedErr, c.maxOutput))
    && (!c.isJob ==> s.updates == Channel([], []) && p.joinings == [] && s.bufOut == s.bufErr == "" && !s.batchTimer)
    && (c.isJob ==>
          if Over(c, s) then
            && Settled(s.updates, p.joinings, Limit(p.received, c.maxOutput), p.acceptedErr, EntryFor(c.texts, s.calls[0]))
            && s.cache.status == EntryFor(c.texts, s.calls[0]).status
          else
            && Broadcasting(s.updates, p.joinings) && Conserved(s, p)
            && s.cache.status == Running && s.cache.stdout == s.stdout && (!p.errored ==> s.cache.stderr == s.stderr))
  }

  /** What holds between events. */
  ghost predicate Ok(c: Config, s: State, p: Past) {
    && Consistent(c, s, p)
    && (s.stdoutDone && s.stderrDone && s.exitCode.Some? ==> Over(c, s))
    && (s.killed ==> Over(c, s) || s.forceTimers != [])
  }

  lemma StartedIsOk(c: Config)
    ensures Ok(c, Started(c), Past("", "", "", false, []))
  {
  }

  lemma EmittedIsFollowed(ch: Channel, js: seq<Joining>, e: Event, nothing: bool)
    requires Broadcasting(ch, js) && !e.Finished?
    ensures Broadcasting(EmittedUnless(ch, nothing, e), js)
    ensures StdoutOf(EmittedUnless(ch, nothing, e).log) == StdoutOf(ch.log) + if e.Stdout? && !nothing then e.data else ""
    ensures StderrOf(EmittedUnless(ch, nothing, e).log) == StderrOf(ch.log) + if e.Stderr? && !nothing then e.data else ""
  {
    StdoutOfAppend(ch.log, e);
    forall i | 0 <= i < |js| ensures Following(Emitted(ch, e).listeners[i], js[i], ch.log + [e]) {
      FollowingContinues(ch.listeners[i], js[i], ch.log, e);
    }
  }

  lemma EmittedStaysSettled(ch: Channel, js: seq<Joining>, streamed: string, streamedErr: string, final: Entry, e: Event,
                               nothing: bool)
    requires Settled(ch, js, streamed, streamedErr, final) && !e.Finished?
    ensures Settled(EmittedUnless(ch, nothing, e), js, streamed, streamedErr, final)
  {
    var f := FinishedAt(ch.log);
    FinishedStaysAt(ch.log, e);
    forall i | 0 <= i < |js| ensures Served(Emitted(ch, e).listeners[i], js[i], ch.log + [e], f) {
      ServedStays(ch.listeners[i], js[i], ch.log, f, e);
    }
  }

  /** A batch goes out without losing or repeating anything. */
  lemma SentIsFollowed(s: State, js: seq<Joining>)
    requires Broadcasting(s.updates, js)
    ensures Broadcasting(Sent(s).updates, js)
    ensures StdoutOf(Sent(s).updates.log) == StdoutOf(s.updates.log) + s.bufOut
    ensures StderrOf(Sent(s).updates.log) == StderrOf(s.updates.log) + s.bufErr
  {
    EmittedIsFollowed(s.updates, js, Stdout(s.bufOut), s.bufOut == "");
    EmittedIsFollowed(EmittedUnless(s.updates, s.bufOut == "", Stdout(s.bufOut)), js, Stderr(s.bufErr), s.bufErr == "");
  }

  lemma SentStaysSettled(s: State, js: seq<Joining>, streamed: string, streamedErr: string, final: Entry)
    requires Settled(s.updates, js, streamed, streamedErr, final)
    ensures Settled(Sent(s).updates, js, streamed, streamedErr, final)
  {
    var ch := EmittedUnless(s.updates, s.bufOut == "", Stdout(s.bufOut));
    EmittedStaysSettled(s.updates, js, streamed, streamedErr, final, Stdout(s.bufOut), s.bufOut == "");
    EmittedStaysSettled(ch, js, streamed, streamedErr, final, Stderr(s.bufErr), s.bufErr == "");
  }

  /** The `finished` event serves every listener in full. */
  lemma FinishedSettles(ch: Channel, js: seq<Joining>, final: Entry)
    requires Broadcasting(ch, js)
    ensures Settled(Emitted(ch, Finished(final)), js, StdoutOf(ch.log), StderrOf(ch.log), final)
  {
    var log' := ch.log + [Finished(final)];
    assert log'[|ch.log|] == Finished(final) && log'[..|ch.log|] == ch.log && FinishedAt(log') == |ch.log|;
    forall i | 0 <= i < |js| ensures Served(DeliverAll(ch.listeners, Finished(final))[i], js[i], log', |ch.log|) {
      FollowingEnds(ch.listeners[i], js[i], ch.log, final);
    }
  }

  /** After a flush everything is streamed, so the callback settles the job. */
  lemma EndedIsOk(c: Config, s: State, p: Past, err: Option<string>)
    requires c.spawned && !s.callbackDone && Consistent(c, s, p)
    ensures Ok(c, Ended(c, s, err), p)
  {
    if c.isJob {
      var call := CallFor(c, err, s.ranCode, s.stdout, s.stderr, s.exitCode);
      SentIsFollowed(s.(batchTimer := false), p.joinings);
      FinishedSettles(Flushed(s).updates, p.joinings, EntryFor(c.texts, call));
    }
  }

  lemma ConcludedIsOk(c: Config, s: State, p: Past, err: Option<string>)
    requires c.spawned && Consistent(c, s, p)
    ensures Ok(c, Concluded(c, s, err), p)
  {
    if !s.callbackDone { EndedIsOk(c, s, p, err); }
  }

  lemma ChunkKeepsOk(c: Config, s: State, p: Past, e: Input)
    requires Ok(c, s, p) && (e.StdoutChunk? || e.StderrChunk?)
    ensures Ok(c, Next(c, s, e), NextPast(c, s, p, e))
  {
    if c.spawned && !s.callbackDone {
      var kept, whole := if e.StdoutChunk? then s.stdout else s.stderr, if e.StdoutChunk? then p.received else p.receivedErr;
      if e.StdoutChunk? || !p.errored { FittingLimits(kept, e.data, c.maxOutput, whole); }
      Associate(StdoutOf(s.updates.log), s.bufOut, Fitting(s.stdout, e.data, c.maxOutput));
      Associate(StderrOf(s.updates.log), s.bufErr, Fitting(s.stderr, e.data, c.maxOutput));
    }
  }

  lemma FailureIsConsistent(c: Config, s: State, p: Past, text: string)
    requires c.spawned && Ok(c, s, p)
    ensures Consistent(c, WithFailure(c, s, text), p.(errored := true))
  {
    if c.isJob {
      var s' := s.(ranCode := false, stderr := s.stderr + text,
                   exitCode := if s.exitCode == None then Some(1) else s.exitCode);
      if Over(c, s) {
        SentStaysSettled(s'.(batchTimer := false), p.joinings, Limit(p.received, c.maxOutput), p.acceptedErr,
                         EntryFor(c.texts, s.calls[0]));
      } else {
        SentIsFollowed(s'.(batchTimer := false), p.joinings);
      }
    }
  }

  /** After a kill the job is over or a forced completion is pending. */
  lemma TimedOutIsOk(c: Config, s: State, p: Past, exited: bool)
    requires c.spawned && Ok(c, s, p) && s.killTimer
    ensures Ok(c, TimedOut(c, s, exited), p)
    ensures var s' := TimedOut(c, s, exited);
            && (!exited ==> s'.callbackDone || s'.forceTimers == s.forceTimers + [Some(c.texts.timedOut)])
            && (!s'.callbackDone ==> s'.exitCode == s.exitCode && s'.calls == [])
            && !s'.killTimer && s'.killed == (s.killed || !exited)
  {
    if !exited { ConcludedIsOk(c, s.(killTimer := false, killed := true), p, Some(c.texts.timedOut)); }
  }

  lemma FailureIsOk(c: Config, s: State, p: Past, text: string)
    requires c.spawned && Ok(c, s, p)
    ensures var s' := Heard(c, s, Failure(text));
            && Ok(c, s', p.(errored := true)) && s'.exitCode.Some? && !s'.ranCode
            && (!s'.callbackDone ==> s'.stderr == s.stderr + text && s'.calls == []
                                     && s'.exitCode == if s.exitCode == None then Some(1) else s.exitCode)
            && (!s'.callbackDone && c.isJob ==> s'.bufOut == "" && s'.bufErr == "" && !s'.batchTimer
                                                && s'.updates.log == s.updates.log + Batch(s.bufOut, s.bufErr))
  {
    FailureIsConsistent(c, s, p, text);
    ConcludedIsOk(c, WithFailure(c, s, text), p.(errored := true), None);
  }

  lemma ForcedIsOk(c: Config, s: State, p: Past, i: nat)
    requires c.spawned && Ok(c, s, p) && i < |s.forceTimers|
    ensures var s' := Forced(c, s, i);
            && Ok(c, s', p) && s'.callbackDone && s'.ranCode == s.ranCode
            && s'.calls == if s.callbackDone then s.calls
                           else [CallFor(c, s.forceTimers[i], s.ranCode, s.stdout, s.stderr, s.exitCode)]
  {
    var s' := s.(forceTimers := s.forceTimers[..i] + s.forceTimers[i + 1..]);
    if !s.callbackDone { ConcludedIsOk(c, s'.(stdoutDone := true, stderrDone := true), p, s.forceTimers[i]); }
  }

  /** The end of a pipe, or the exit of the process, is followed by an attempt to finish. */
  lemma ReportIsOk(c: Config, s: State, p: Past, e: Input)
    requires c.spawned && Ok(c, s, p) && (e.StdoutEnd? || e.StderrEnd? || e.Exit?)
    ensures Ok(c, Heard(c, s, e), p)
  {
    hide Concluded;
    match e
    case StdoutEnd => ConcludedIsOk(c, s.(stdoutDone := true), p, None);
    case StderrEnd => ConcludedIsOk(c, s.(stderrDone := true), p, None);
    case Exit(code) => ConcludedIsOk(c, s.(exitCode := Some(CodeFor(code))), p, None);
  }

  lemma HeardIsOk(c: Config, s: State, p: Past, e: Input)
    requires c.spawned && Ok(c, s, p) && !e.StdoutChunk? && !e.StderrChunk?
    requires !e.Tick? && !e.Sample? && !e.Joins?
    ensures Ok(c, Heard(c, s, e), NextPast(c, s, p, e))
  {
    hide Ok, Concluded, WithFailure, TimedOut, Forced;
    match e
    case Failure(text) => FailureIsOk(c, s, p, text);
    case KillDue(exited) =>
      if s.killTimer { TimedOutIsOk(c, s, p, exited); }
    case ForceDue(which) =>
      if which < |s.forceTimers| { ForcedIsOk(c, s, p, which); }
    case _ => ReportIsOk(c, s, p, e);
  }

  lemma JoinedIsOk(c: Config, s: State, p: Past)
    requires c.isJob && Ok(c, s, p)
    ensures Ok(c, Joined(s), NextPast(c, s, p, Joins))
  {
    if Over(c, s) {
      LateJoinIsOk(c, s, p);
    } else {
      EarlyJoinIsOk(c, s, p);
    }
  }

  lemma EarlyJoinIsOk(c: Config, s: State, p: Past)
    requires c.isJob && !Over(c, s) && Ok(c, s, p)
    ensures Ok(c, Joined(s), NextPast(c, s, p, Joins))
  {
    hide Limit, Settled, EntryFor;
    var log := s.updates.log;
    assert Outputs(log[|log|..]) == [] && log[..|log|] == log;
  }

  lemma LateJoinIsOk(c: Config, s: State, p: Past)
    requires c.isJob && Over(c, s) && Ok(c, s, p)
    ensures Ok(c, Joined(s), NextPast(c, s, p, Joins))
  {
    hide Limit, Broadcasting, Conserved;
  }

  lemma TickIsOk(c: Config, s: State, p: Past)
    requires s.batchTimer && Ok(c, s, p)
    ensures Ok(c, Sent(s), p)
  {
    SentIsFollowed(s, p.joinings);
  }

  lemma SampleIsOk(c: Config, s: State, p: Past, sample: int)
    requires c.isJob && Ok(c, s, p)
    ensures Ok(c, s.(updates := Emitted(s.updates, Stats(sample))), p)
  {
    if Over(c, s) {
      LateSampleIsOk(c, s, p, sample);
    } else {
      EarlySampleIsOk(c, s, p, sample);
    }
  }

  lemma EarlySampleIsOk(c: Config, s: State, p: Past, sample: int)
    requires c.isJob && !Over(c, s) && Ok(c, s, p)
    ensures Ok(c, s.(updates := Emitted(s.updates, Stats(sample))), p)
  {
    EmittedIsFollowed(s.updates, p.joinings, Stats(sample), false);
    assert StdoutOf(s.updates.log) + "" == StdoutOf(s.updates.log) && StderrOf(s.updates.log) + "" == StderrOf(s.updates.log);
  }

  lemma LateSampleIsOk(c: Config, s: State, p: Past, sample: int)
    requires c.isJob && Over(c, s) && Ok(c, s, p)
    ensures Ok(c, s.(updates := Emitted(s.updates, Stats(sample))), p)
  {
    EmittedStaysSettled(s.updates, p.joinings, Limit(p.received, c.maxOutput), p.acceptedErr, EntryFor(c.texts, s.calls[0]),
                        Stats(sample), false);
  }

  /** Every event keeps the invariant. */
  lemma NextIsOk(c: Config, s: State, p: Past, e: Input)
    requires Ok(c, s, p)
    ensures Ok(c, Next(c, s, e), NextPast(c, s, p, e))
  {
    hide Ok, Heard, Sent, Joined, Emitted;
    if e.StdoutChunk? || e.StderrChunk? {
      ChunkKeepsOk(c, s, p, e);
    } else if e.Tick? {
      if s.batchTimer { TickIsOk(c, s, p); }
    } else if e.Sample? {
      if c.isJob { SampleIsOk(c, s, p, e.sample); }
    } else if e.Joins? {
      if c.isJob { JoinedIsOk(c, s, p); }
    } else if c.spawned {
      HeardIsOk(c, s, p, e);
    }
  }
}
