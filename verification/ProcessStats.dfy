/** The table of scan requests that a process monitor has handed to its worker, with a timer for each,
    under any order of messages, timeouts, crashes and restarts of the worker. */
module ProcessStats {
  import opened Options

  /** What the scan of the process table found; its contents do not matter here. */
  type Scan = int

  datatype Message = ScanStarted(id: nat) | ScanResult(id: nat, scan: Scan) | ScanError(id: nat, text: string)

  datatype Reason = QueueTimeout | ExecTimeout | WorkerFailed(text: string) | ScanFailed(text: string) | NotPosted

  /** How a promise ended. */
  datatype Settlement = Resolved(scan: Scan) | Rejected(reason: Reason)

  datatype Timer = Timer(id: nat, reason: Reason)

  function Rejections(ids: set<nat>, reason: Reason): map<nat, Settlement> {
    map id | id in ids :: Rejected(reason)
  }

  lemma OneMoreRejection(settled: map<nat, Settlement>, ids: set<nat>, id: nat, reason: Reason)
    ensures (settled + Rejections(ids, reason))[id := Rejected(reason)] == settled + Rejections(ids + {id}, reason)
  {
  }

  lemma OneLessLeft(all: set<nat>, rest: set<nat>, id: nat)
    requires id in rest && rest <= all
    ensures all - (rest - {id}) == all - rest + {id} && rest - {id} <= all && |rest - {id}| < |rest|
  {
  }

  lemma OneMoreCleared(timers: map<nat, Timer>, cleared: set<nat>, t: nat)
    ensures timers - cleared - {t} == timers - (cleared + {t})
  {
  }

  lemma AllCleared(pending: map<nat, nat>, timers: map<nat, Timer>, cleared: set<nat>)
    requires forall t :: t in timers ==> timers[t].id in pending && pending[timers[t].id] == t
    requires forall id :: id in pending ==> pending[id] in cleared
    ensures timers - cleared == map[]
  {
    assert forall t :: t in timers ==> t in cleared;
  }

  /** Live timers and pending requests are in bijection; handles from `next` on are unused. */
  ghost predicate Linked(pending: map<nat, nat>, timers: map<nat, Timer>, next: nat) {
    && (forall id :: id in pending ==> pending[id] in timers && timers[pending[id]].id == id)
    && (forall t :: t in timers ==> t < next && timers[t].id in pending && pending[timers[t].id] == t)
  }

  lemma NewRequestIsLinked(pending: map<nat, nat>, timers: map<nat, Timer>, next: nat, id: nat, reason: Reason)
    requires Linked(pending, timers, next) && id !in pending
    ensures Linked(pending[id := next], timers[next := Timer(id, reason)], next + 1)
    ensures Linked(pending, timers, next + 1)
  {
  }

  lemma RestartedIsLinked(pending: map<nat, nat>, timers: map<nat, Timer>, next: nat, id: nat, reason: Reason)
    requires Linked(pending, timers, next) && id in pending
    ensures Linked(pending[id := next], (timers - {pending[id]})[next := Timer(id, reason)], next + 1)
  {
  }

  lemma RemovedIsLinked(pending: map<nat, nat>, timers: map<nat, Timer>, next: nat, id: nat)
    requires Linked(pending, timers, next) && id in pending
    ensures Linked(pending - {id}, timers - {pending[id]}, next)
  {
  }

  class RequestTable {
    var requestId: nat
    var pending: map<nat, nat>         // request id to timer handle
    var timers: map<nat, Timer>        // live timers by handle
    var nextHandle: nat
    var settled: map<nat, Settlement>  // promises that have ended
    var worker: bool
    var inlineOnly: bool
    var terminations: nat

    // Histories: the requests for which a promise was made, and the messages that came in.
    ghost var promised: set<nat>
    ghost var heard: set<Message>

    /** Live timers and pending requests are in bijection; a promise is either pending or settled;
        a promise is resolved only by a result for its own id. */
    ghost predicate Valid()
      reads this
    {
      && Linked(pending, timers, nextHandle)
      && promised == pending.Keys + settled.Keys && pending.Keys !! settled.Keys
      && (forall id :: id in promised ==> 0 < id <= requestId)
      && (forall id :: id in settled && settled[id].Resolved? ==> ScanResult(id, settled[id].scan) in heard)
    }

    /** No promise that has ended changes, and none disappears. */
    twostate predicate Keeps()
      reads this
    {
      && old(promised) <= promised && old(heard) <= heard
      && forall id :: id in old(settled) ==> id in settled && settled[id] == old(settled)[id]
    }

    constructor ()
      ensures Valid() && requestId == 0 && pending == map[] && settled == map[] && heard == {} && promised == {}
      ensures !worker && !inlineOnly && nextHandle == 0
    {
      requestId, pending, timers, nextHandle, settled := 0, map[], map[], 0, map[];
      worker, inlineOnly, terminations := false, false, 0;
      promised, heard := {}, {};
    }

    /** `setTimeout` with a new handle. */
    method TimeoutRequest(id: nat, reason: Reason) returns (t: nat)
      modifies `timers, `nextHandle
      ensures t == old(nextHandle) && nextHandle == t + 1 && timers == old(timers)[t := Timer(id, reason)]
    {
      t := nextHandle;
      nextHandle := nextHandle + 1;
      timers := timers[t := Timer(id, reason)];
    }

    /** The worker is created on demand; without its script, scans run inline from then on. */
    method EnsureWorker(scriptExists: bool) returns (available: bool)
      modifies `worker, `inlineOnly
      ensures available == (!old(inlineOnly) && (old(worker) || scriptExists))
      ensures worker == (old(worker) || available) && inlineOnly == (old(inlineOnly) || !available)
    {
      if inlineOnly { return false; }
      if worker { return true; }
      if !scriptExists {
        inlineOnly := true;
        return false;
      }
      worker := true;
      return true;
    }

    /** `scanProcesses`: hand a request to the worker, unless the scan runs inline; posting it may fail. */
    method ScanProcesses(scriptExists: bool, postOk: bool) returns (id: nat, handed: bool)
      requires Valid()
      modifies this
      ensures Valid() && Keeps()
      ensures id == old(requestId) + 1 == requestId && heard == old(heard) && terminations == old(terminations)
      ensures handed == (!old(inlineOnly) && (old(worker) || scriptExists))
      ensures worker == (old(worker) || handed) && inlineOnly == (old(inlineOnly) || !handed)
      ensures promised == if handed then old(promised) + {id} else old(promised)
      ensures nextHandle == old(nextHandle) + if handed then 1 else 0
      ensures handed && postOk ==>
                && pending == old(pending)[id := old(nextHandle)] && settled == old(settled)
                && timers == old(timers)[old(nextHandle) := Timer(id, QueueTimeout)]
      ensures !handed || !postOk ==> pending == old(pending) && timers == old(timers)
      ensures !handed ==> settled == old(settled)
      ensures handed && !postOk ==> settled == old(settled)[id := Rejected(NotPosted)]
    {
      hide Linked;
      assert requestId + 1 !in promised;
      NewRequestIsLinked(pending, timers, nextHandle, requestId + 1, QueueTimeout);
      requestId := requestId + 1;
      id := requestId;
      handed := EnsureWorker(scriptExists);
      if !handed { return; }
      Submit(id, postOk);
    }

    method Submit(id: nat, postOk: bool)
      requires id !in pending && Linked(pending, timers, nextHandle)
      modifies `pending, `timers, `nextHandle, `settled, `promised
      ensures promised == old(promised) + {id} && nextHandle == old(nextHandle) + 1
      ensures postOk ==> pending == old(pending)[id := old(nextHandle)] && settled == old(settled)
                         && timers == old(timers)[old(nextHandle) := Timer(id, QueueTimeout)]
      ensures !postOk ==> pending == old(pending) && timers == old(timers) && settled == old(settled)[id := Rejected(NotPosted)]
    {
      var t := TimeoutRequest(id, QueueTimeout);
      Post(id, t, postOk);
    }

    /** Enter the request, post it, and take it back if posting throws. */
    method Post(id: nat, t: nat, postOk: bool)
      requires id !in pending && t in timers
      modifies `pending, `timers, `settled, `promised
      ensures promised == old(promised) + {id}
      ensures postOk ==> pending == old(pending)[id := t] && timers == old(timers) && settled == old(settled)
      ensures !postOk ==> pending == old(pending) && timers == old(timers) - {t} && settled == old(settled)[id := Rejected(NotPosted)]
    {
      pending := pending[id := t];
      promised := promised + {id};
      if !postOk {
        timers := timers - {pending[id]};
        pending := pending - {id};
        settled := settled[id := Rejected(NotPosted)];
      }
    }

    /** `handleWorkerMessage`: messages for requests that are no longer pending are ignored. */
    method OnMessage(m: Message)
      requires Valid()
      modifies `pending, `timers, `nextHandle, `settled, `heard
      ensures Valid() && Keeps()
      ensures heard == old(heard) + {m}
      ensures m.id !in old(pending) || m.ScanStarted? ==> settled == old(settled)
      ensures m.id !in old(pending) ==> pending == old(pending) && timers == old(timers)
      ensures nextHandle == old(nextHandle) + if m.id in old(pending) && m.ScanStarted? then 1 else 0
      ensures m.id in old(pending) && m.ScanStarted? ==>
                && pending == old(pending)[m.id := old(nextHandle)]
                && timers == (old(timers) - {old(pending)[m.id]})[old(nextHandle) := Timer(m.id, ExecTimeout)]
      ensures m.id in old(pending) && !m.ScanStarted? ==>
                && pending == old(pending) - {m.id} && timers == old(timers) - {old(pending)[m.id]}
                && settled == old(settled)[m.id := if m.ScanError? then Rejected(ScanFailed(m.text)) else Resolved(m.scan)]
    {
      heard := heard + {m};
      if m.id !in pending { return; }
      if m.ScanStarted? {
        RestartedIsLinked(pending, timers, nextHandle, m.id, ExecTimeout);
        Restart(m.id);
      } else {
        RemovedIsLinked(pending, timers, nextHandle, m.id);
        Settle(m.id, if m.ScanError? then Rejected(ScanFailed(m.text)) else Resolved(m.scan));
      }
    }

    /** The worker has started on a request: another timer replaces the first. */
    method Restart(id: nat)
      requires id in pending
      modifies `pending, `timers, `nextHandle
      ensures nextHandle == old(nextHandle) + 1 && pending == old(pending)[id := old(nextHandle)]
      ensures timers == (old(timers) - {old(pending)[id]})[old(nextHandle) := Timer(id, ExecTimeout)]
    {
      timers := timers - {pending[id]};
      var t := TimeoutRequest(id, ExecTimeout);
      pending := pending[id := t];
    }

    method Settle(id: nat, settlement: Settlement)
      requires id in pending
      modifies `pending, `timers, `settled
      ensures pending == old(pending) - {id} && timers == old(timers) - {old(pending)[id]}
      ensures settled == old(settled)[id := settlement]
    {
      timers := timers - {pending[id]};
      pending := pending - {id};
      settled := settled[id := settlement];
    }

    /** A live timer fires. It always finds its own request still pending. */
    method OnTimer(t: nat)
      requires Valid() && t in timers
      modifies `pending, `timers, `settled, `terminations
      ensures Valid() && Keeps()
      ensures old(timers[t].id) in old(pending)
      ensures pending == old(pending) - {old(timers[t].id)} && timers == old(timers) - {t}
      ensures settled == old(settled)[old(timers[t].id) := Rejected(old(timers[t].reason))]
      ensures terminations == old(terminations) + if worker then 1 else 0
    {
      RemovedIsLinked(pending, timers, nextHandle, timers[t].id);
      var timer := timers[t];
      timers := timers - {t};
      if timer.id !in pending { return; }
      pending := pending - {timer.id};
      settled := settled[timer.id := Rejected(timer.reason)];
      if worker {
        terminations := terminations + 1;
      }
    }

    /** `rejectAllPending` */
    method RejectAllPending(reason: Reason)
      requires Valid()
      modifies `pending, `timers, `settled
      ensures Valid() && Keeps()
      ensures pending == map[] && timers == map[]
      ensures settled == old(settled) + Rejections(old(pending).Keys, reason)
      ensures forall id :: id in old(pending) ==> id in settled && settled[id] == Rejected(reason)
    {
      RejectEach(reason);
      pending := map[];
      assert promised == settled.Keys;
    }

    method RejectEach(reason: Reason)
      requires forall t :: t in timers ==> timers[t].id in pending && pending[timers[t].id] == t
      modifies `timers, `settled
      ensures timers == map[]
      ensures settled == old(settled) + Rejections(pending.Keys, reason)
    {
      var rest := pending.Keys;
      ghost var gone, cleared := {}, {};
      while rest != {}
        invariant rest <= pending.Keys && gone == pending.Keys - rest
        invariant settled == old(settled) + Rejections(gone, reason)
        invariant timers == old(timers) - cleared
        invariant forall id :: id in gone ==> pending[id] in cleared
        decreases |rest|
      {
        var id :| id in rest;
        OneMoreRejection(old(settled), gone, id, reason);
        OneLessLeft(pending.Keys, rest, id);
        OneMoreCleared(old(timers), cleared, pending[id]);
        timers := timers - {pending[id]};
        settled := settled[id := Rejected(reason)];
        rest, gone, cleared := rest - {id}, gone + {id}, cleared + {pending[id]};
      }
      assert gone == pending.Keys;
      AllCleared(pending, old(timers), cleared);
    }

    /** Any worker, current or earlier, reports an error or exits: everything that is pending is rejected. */
    method OnWorkerGone(text: string)
      requires Valid()
      modifies `pending, `timers, `settled, `worker
      ensures Valid() && Keeps() && !worker
      ensures pending == map[] && timers == map[]
      ensures settled == old(settled) + Rejections(old(pending).Keys, WorkerFailed(text))
      ensures forall id :: id in old(pending) ==> id in settled && settled[id] == Rejected(WorkerFailed(text))
    {
      RejectAllPending(WorkerFailed(text));
      worker := false;
    }
  }

  datatype Event = Request(scriptExists: bool, postOk: bool) | Incoming(message: Message) | Due(t: nat) | Gone(text: string)

  // ----- reading a sequence of events, one request at a time -----

  /** How many scans were asked for. */
  function Requests(events: seq<Event>): nat {
    if events == [] then 0
    else Requests(events[..|events| - 1]) + if events[|events| - 1].Request? then 1 else 0
  }

  /** Whether a request at the end would find a worker running. */
  predicate Up(events: seq<Event>)
    decreases |events|, 0
  {
    if events == [] then false
    else
      var before, e := events[..|events| - 1], events[|events| - 1];
      if e.Request? then Up(before) || FindsWorker(before, e) else !e.Gone? && Up(before)
  }

  /** Whether some request found neither a worker nor its script. */
  predicate Inline(events: seq<Event>)
    decreases |events|, 0
  {
    if events == [] then false
    else
      var before, e := events[..|events| - 1], events[|events| - 1];
      Inline(before) || (e.Request? && !FindsWorker(before, e))
  }

  predicate FindsWorker(before: seq<Event>, e: Event)
    decreases |before|, 1
  {
    e.Request? && !Inline(before) && (Up(before) || e.scriptExists)
  }

  /** The numbers of the requests that were handed to a worker. */
  function Handed(events: seq<Event>): set<nat> {
    if events == [] then {}
    else
      var before, e := events[..|events| - 1], events[|events| - 1];
      Handed(before) + if FindsWorker(before, e) then {Requests(before) + 1} else {}
  }

  datatype Fate = Unasked | Waiting(handle: nat, reason: Reason) | Ended(settlement: Settlement)

  /** What an event settles a waiting request with, if anything: a result or an error for it, its own timer, the end of a worker. */
  function SettledBy(id: nat, handle: nat, reason: Reason, e: Event): Option<Settlement> {
    match e
    case Incoming(ScanResult(i, scan)) => if i == id then Some(Resolved(scan)) else None
    case Incoming(ScanError(i, text)) => if i == id then Some(Rejected(ScanFailed(text))) else None
    case Due(t) => if t == handle then Some(Rejected(reason)) else None
    case Gone(text) => Some(Rejected(WorkerFailed(text)))
    case _ => None
  }

  /** What has become of request number id; timers are numbered in the order in which they are set. */
  function FateOf(events: seq<Event>, id: nat): Fate
    decreases |events|, 0
  {
    if events == [] then Unasked
    else
      var before, e := events[..|events| - 1], events[|events| - 1];
      var fate := FateOf(before, id);
      if FindsWorker(before, e) && id == Requests(before) + 1 then
        if e.postOk then Waiting(TimersSet(before), QueueTimeout) else Ended(Rejected(NotPosted))
      else if !fate.Waiting? then fate
      else if e == Incoming(ScanStarted(id)) then Waiting(TimersSet(before), ExecTimeout)
      else
        var settled := SettledBy(id, fate.handle, fate.reason, e);
        if settled.Some? then Ended(settled.value) else fate
  }

  function TimersSet(events: seq<Event>): nat
    decreases |events|, 1
  {
    if events == [] then 0
    else
      var before, e := events[..|events| - 1], events[|events| - 1];
      TimersSet(before) + if FindsWorker(before, e) || Starts(before, e) then 1 else 0
  }

  /** A message that a scan has begun, for a request that waits for it. */
  predicate Starts(before: seq<Event>, e: Event)
    decreases |before|, 1
  {
    e.Incoming? && e.message.ScanStarted? && FateOf(before, e.message.id).Waiting?
  }

  lemma OneMoreEvent(before: seq<Event>, e: Event)
    ensures (before + [e])[..|before|] == before && (before + [e])[|before|] == e
  {
  }

  lemma {:induction false} HandedAreAsked(events: seq<Event>, id: nat)
    ensures id in Handed(events) <==> FateOf(events, id) != Unasked
    ensures id in Handed(events) ==> 0 < id <= Requests(events)
  {
    if events != [] { HandedAreAsked(events[..|events| - 1], id); }
  }

  /** Event i is what settled request id: posting it failed, or it was waiting and the event was an end for it. */
  predicate SettlesAt(events: seq<Event>, i: nat, id: nat, s: Settlement)
    requires i < |events|
  {
    var before, e := events[..i], events[i];
    if FindsWorker(before, e) && id == Requests(before) + 1 then !e.postOk && s == Rejected(NotPosted)
    else
      var fate := FateOf(before, id);
      fate.Waiting? && SettledBy(id, fate.handle, fate.reason, e) == Some(s)
  }

  /** A promise that has ended stays as it is. */
  lemma {:induction false} EndedStays(events: seq<Event>, i: nat, id: nat)
    requires i <= |events| && FateOf(events[..i], id).Ended?
    ensures FateOf(events, id) == FateOf(events[..i], id)
  {
    if i == |events| {
      assert events[..i] == events;
    } else {
      var before := events[..|events| - 1];
      assert before[..i] == events[..i];
      EndedStays(before, i, id);
      HandedAreAsked(before, id);
    }
  }

  lemma {:induction false} SettledHasCause(events: seq<Event>, id: nat, s: Settlement)
    requires FateOf(events, id) == Ended(s)
    ensures exists i :: 0 <= i < |events| && SettlesAt(events, i, id, s)
  {
    var n := |events| - 1;
    var before := events[..n];
    if FateOf(before, id) == Ended(s) && !(FindsWorker(before, events[n]) && id == Requests(before) + 1) {
      SettledHasCause(before, id, s);
      var i :| 0 <= i < |before| && SettlesAt(before, i, id, s);
      assert before[..i] == events[..i] && SettlesAt(events, i, id, s);
    } else {
      assert SettlesAt(events, n, id, s);
    }
  }

  /** Every settlement has its cause, and every cause settles, once and for all: a request is resolved or rejected with s
      if and only if some event settled it so. */
  lemma SettledIff(events: seq<Event>, id: nat, s: Settlement)
    ensures FateOf(events, id) == Ended(s) <==> exists i :: 0 <= i < |events| && SettlesAt(events, i, id, s)
  {
    if FateOf(events, id) == Ended(s) { SettledHasCause(events, id, s); }
    forall i | 0 <= i < |events| && SettlesAt(events, i, id, s) ensures FateOf(events, id) == Ended(s) {
      assert events[..i + 1][..i] == events[..i];
      assert FateOf(events[..i + 1], id) == Ended(s);
      EndedStays(events, i + 1, id);
    }
  }

  lemma ResolvedByOwnResult(events: seq<Event>, id: nat, scan: Scan)
    requires FateOf(events, id) == Ended(Resolved(scan))
    ensures Incoming(ScanResult(id, scan)) in events
  {
    SettledIff(events, id, Resolved(scan));
    var i :| 0 <= i < |events| && SettlesAt(events, i, id, Resolved(scan));
    assert events[i] == Incoming(ScanResult(id, scan));
  }

  /** A request that is settled was settled by one event only. */
  lemma SettledOnce(events: seq<Event>, id: nat, i: nat, s: Settlement, j: nat, r: Settlement)
    requires i <= j < |events| && SettlesAt(events, i, id, s) && SettlesAt(events, j, id, r)
    ensures i == j && s == r
  {
    if i < j {
      var before := events[..j];
      assert events[..i + 1][..i] == events[..i] && before[..i + 1] == events[..i + 1];
      assert FateOf(events[..i + 1], id) == Ended(s);
      EndedStays(before, i + 1, id);
      HandedAreAsked(before, id);
    }
  }

  // ----- the table follows the events -----

  /** What the table holds of one request. */
  predicate Holds(fate: Fate, id: nat, pending: map<nat, nat>, timers: map<nat, Timer>, settled: map<nat, Settlement>) {
    match fate
    case Unasked => id !in pending && id !in settled
    case Waiting(handle, reason) => id in pending && pending[id] == handle && handle in timers && timers[handle] == Timer(id, reason)
    case Ended(s) => id !in pending && id in settled && settled[id] == s
  }

  ghost predicate Follows(table: RequestTable, events: seq<Event>)
    reads table
  {
    && table.Valid()
    && table.requestId == Requests(events) && table.nextHandle == TimersSet(events)
    && table.worker == Up(events) && table.inlineOnly == Inline(events)
    && table.promised == Handed(events)
    && forall id {:trigger FateOf(events, id)} :: Holds(FateOf(events, id), id, table.pending, table.timers, table.settled)
  }

  method RequestStep(table: RequestTable, ghost before: seq<Event>, e: Event)
    requires e.Request? && Follows(table, before)
    modifies table
    ensures Follows(table, before + [e])
  {
    OneMoreEvent(before, e);
    var id, handed := table.ScanProcesses(e.scriptExists, e.postOk);
    assert handed == FindsWorker(before, e);
  }

  method MessageStep(table: RequestTable, ghost before: seq<Event>, m: Message)
    requires Follows(table, before)
    modifies table
    ensures Follows(table, before + [Incoming(m)])
  {
    OneMoreEvent(before, Incoming(m));
    assert Holds(FateOf(before, m.id), m.id, table.pending, table.timers, table.settled);
    table.OnMessage(m);
  }

  /** A timer fires only while it is live. */
  method TimerStep(table: RequestTable, ghost before: seq<Event>, t: nat)
    requires Follows(table, before)
    modifies table
    ensures Follows(table, before + [Due(t)])
  {
    OneMoreEvent(before, Due(t));
    if t in table.timers {
      table.OnTimer(t);
    }
  }

  method GoneStep(table: RequestTable, ghost before: seq<Event>, text: string)
    requires Follows(table, before)
    modifies table
    ensures Follows(table, before + [Gone(text)])
  {
    OneMoreEvent(before, Gone(text));
    table.OnWorkerGone(text);
  }

  /** For every sequence of events the table ends up with exactly what the sequence says of each request: those handed to a
      worker are pending, each with its own live timer, or settled as some event settled them; and nothing else is there. */
  method RunTable(events: seq<Event>)
    returns (pending: map<nat, nat>, timers: map<nat, Timer>, settled: map<nat, Settlement>, issued: nat)
    ensures forall id {:trigger FateOf(events, id)} :: Holds(FateOf(events, id), id, pending, timers, settled)
    ensures pending.Keys !! settled.Keys && pending.Keys + settled.Keys == Handed(events)
    ensures forall id :: id in pending ==> pending[id] in timers && timers[pending[id]].id == id
    ensures forall t :: t in timers ==> timers[t].id in pending && pending[timers[t].id] == t
    ensures forall id :: id in pending || id in settled ==> 0 < id <= issued
    ensures forall id :: id in settled && settled[id].Resolved? ==> Incoming(ScanResult(id, settled[id].scan)) in events
    ensures events != [] && events[|events| - 1].Gone? ==> pending == map[]
    ensures issued == Requests(events)
  {
    var table := new RequestTable();
    for i := 0 to |events|
      invariant fresh(table) && Follows(table, events[..i])
    {
      assert events[..i + 1] == events[..i] + [events[i]];
      match events[i]
      case Request(_, _) => RequestStep(table, events[..i], events[i]);
      case Incoming(m) => MessageStep(table, events[..i], m);
      case Due(t) => TimerStep(table, events[..i], t);
      case Gone(text) => GoneStep(table, events[..i], text);
    }
    assert events[..|events|] == events;
    pending, timers, settled, issued := table.pending, table.timers, table.settled, table.requestId;
    forall id | id in settled && settled[id].Resolved? ensures Incoming(ScanResult(id, settled[id].scan)) in events {
      ResolvedByOwnResult(events, id, settled[id].scan);
    }
    forall id | id in pending ensures events == [] || !events[|events| - 1].Gone? {
      assert FateOf(events, id).Waiting?;
    }
  }
}
