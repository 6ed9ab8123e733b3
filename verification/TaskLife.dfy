/** Background tasks under every race of progress, cancellation, completion,
    expiry, polling and shutdown.

    `Step` is one segment of any task. Ids are fresh, the clock never goes
    back, and a job reports progress only while it runs. */
module TaskLife {
  import opened TaskStore
  import opened Wrappers

  /** A job is running, has ended with its final write still to come, has been
      written, or was cut down by the closing nursery. */
  datatype Phase = Running | Ended(ending: Ending) | Settled(ending: Ending) | Gone

  /** `history` logs what the store held for the task after each write, `asked`
      that a cancellation reached it. Neither steers anything. */
  datatype Job = Job(phase: Phase, history: History, asked: bool)

  type History = h: seq<Record> | |h| > 0 witness [Fresh(0.0, None)]

  datatype System = System(now: real, tables: Tables, jobs: map<Id, Job>, closing: bool)

  datatype Event =
    | Tick(seconds: real)
    | Start(id: Id, ttlMs: Option<int>)
    | Progress(id: Id, message: Option<Message>)
    | Cancel(id: Id)
    | End(id: Id, ending: Ending)
    | Finish(id: Id)
    | Shutdown
    | Unwind(id: Id)
    | Poll(id: Id)

  ghost predicate In(s: System, id: Id, phase: Phase) {
    id in s.jobs && s.jobs[id].phase == phase
  }

  ghost predicate Enabled(s: System, e: Event) {
    match e
    case Tick(seconds) => seconds >= 0.0
    case Start(id, _) => id !in s.jobs && !s.closing
    case Progress(id, _) => In(s, id, Running)
    case Cancel(_) => true
    case End(id, ending) =>
      In(s, id, Running) && (ending == Stopped ==> id in s.tables.scopes && s.tables.scopes[id])
    case Finish(id) => id in s.jobs && s.jobs[id].phase.Ended?
    case Shutdown => true
    case Unwind(id) => In(s, id, Running) && s.closing
    case Poll(_) => true
  }

  /** The job's log after a write that left `records`. */
  ghost function Logged(job: Job, records: map<Id, Record>, id: Id): Job {
    if id in records then job.(history := job.history + [records[id]]) else job
  }

  ghost predicate Step(s: System, e: Event, s': System) {
    && Enabled(s, e)
    && match e
       case Tick(seconds) => s' == s.(now := s.now + seconds)
       case Start(id, ttlMs) =>
         var record := Fresh(s.now, ttlMs);
         s' == s.(tables := Tables(s.tables.records[id := record], s.tables.scopes[id := false]),
                  jobs := s.jobs[id := Job(Running, [record], false)])
       case Progress(id, message) =>
         var records := Updated(s.tables.records, id, s.now, Working, message, None);
         s' == s.(tables := s.tables.(records := records), jobs := s.jobs[id := Logged(s.jobs[id], records, id)])
       case Cancel(id) =>
         s' == s.(tables := s.tables.(scopes := Asked(s.tables.scopes, id)),
                  jobs := if id in s.tables.scopes && id in s.jobs then s.jobs[id := s.jobs[id].(asked := true)]
                          else s.jobs)
       case End(id, ending) =>
         s' == s.(jobs := s.jobs[id := s.jobs[id].(phase := Ended(ending))])
       case Finish(id) =>
         var ending := s.jobs[id].phase.ending;
         var records := Written(s.tables.records, id, s.now, ending);
         s' == s.(tables := Tables(records, s.tables.scopes - {id}),
                  jobs := s.jobs[id := Logged(s.jobs[id], records, id).(phase := Settled(ending))])
       case Shutdown => s' == s.(closing := true)
       case Unwind(id) =>
         s' == s.(tables := s.tables.(scopes := s.tables.scopes - {id}),
                  jobs := s.jobs[id := s.jobs[id].(phase := Gone)])
       case Poll(id) => s' == s.(tables := s.tables.(records := Purged(s.tables.records, id, s.now)))
  }

  // -------------------------------------------------------------- invariant

  function Last(h: History): Record {
    h[|h| - 1]
  }

  ghost predicate AllWorking(h: seq<Record>) {
    forall k :: 0 <= k < |h| ==> h[k].status == Working && h[k].result == None
  }

  /** The successive records of one task: times go forward, and creation time
      and retention never change. */
  ghost predicate Forward(h: seq<Record>) {
    forall k :: 0 <= k < |h| ==>
      && h[k].created == h[0].created <= h[k].updated && h[k].ttlMs == h[0].ttlMs
      && (k + 1 < |h| ==> h[k].updated <= h[k + 1].updated)
  }

  /** The final record: status, message and result that the ending calls for,
      with the last progress message kept when the job produced its payload. */
  ghost predicate Concludes(before: Record, ending: Ending, r: Record) {
    && r.created == before.created && r.ttlMs == before.ttlMs
    && match ending
       case Produced(p) =>
         r.status == (if p.isError then Failed else Completed) && r.result == Some(p) && r.message == before.message
       case Stopped => r.status == Cancelled && r.result == None && r.message == Some(CancelledMessage)
       case Raised(m) => r.status == Failed && r.result == None && r.message == Some(m)
  }

  /** Working writes, then exactly one final write once the job is settled. */
  ghost predicate Shaped(job: Job) {
    && Forward(job.history)
    && match job.phase
       case Settled(ending) =>
         var n := |job.history| - 1;
         && n > 0 && AllWorking(job.history[..n])
         && Concludes(job.history[n - 1], ending, job.history[n])
       case _ => AllWorking(job.history)
  }

  /** The store holds the last record written, unless that has expired. */
  ghost predicate Held(s: System, id: Id) {
    if id in s.jobs then
      && Last(s.jobs[id].history).updated <= s.now
      && if id in s.tables.records then s.tables.records[id] == Last(s.jobs[id].history)
         else Expired(Last(s.jobs[id].history), s.now)
    else id !in s.tables.records
  }

  /** A scope is there from the start to the final write, and a job counts as
      cancelled only if it was asked to. */
  ghost predicate Scoped(s: System, id: Id) {
    && (id in s.tables.scopes <==> id in s.jobs && (s.jobs[id].phase == Running || s.jobs[id].phase.Ended?))
    && (id in s.tables.scopes ==> s.tables.scopes[id] == s.jobs[id].asked)
    && (id in s.jobs && EndingOf(s.jobs[id].phase) == Some(Stopped) ==> s.jobs[id].asked)
    && (In(s, id, Gone) ==> s.closing)
  }

  function EndingOf(phase: Phase): Option<Ending> {
    match phase
    case Ended(e) => Some(e)
    case Settled(e) => Some(e)
    case _ => None
  }

  ghost predicate OneOk(s: System, id: Id) {
    (id in s.jobs ==> Shaped(s.jobs[id])) && Held(s, id) && Scoped(s, id)
  }

  ghost predicate Inv(s: System) {
    forall id :: OneOk(s, id)
  }

  /** An expired record stays expired, and a working one never is. */
  lemma ExpiryIsForGood(r: Record, now: real, later: real)
    requires now <= later && Expired(r, now)
    ensures Expired(r, later)
  {
  }

  /** One write to a task that has not settled yet. */
  lemma WriteKeepsShape(job: Job, now: real, status: Status, message: Option<Message>, result: Option<Payload>,
                        r: Record)
    requires Shaped(job) && !job.phase.Settled? && Last(job.history).updated <= now
    requires r == Replaced(Last(job.history), now, status, message, result)
    ensures Forward(job.history + [r])
    ensures (job.history + [r])[..|job.history|] == job.history
    ensures status == Working && result == None ==> AllWorking(job.history + [r])
  {
  }

  lemma ProgressKeepsOne(s: System, e: Event, s': System)
    requires e.Progress? && Step(s, e, s') && OneOk(s, e.id)
    ensures OneOk(s', e.id)
  {
    var job := s.jobs[e.id];
    assert Last(job.history).status == Working;
    assert s.tables.records[e.id] == Last(job.history);
    WriteKeepsShape(job, s.now, Working, e.message, None, s'.tables.records[e.id]);
  }

  lemma FinishKeepsOne(s: System, e: Event, s': System)
    requires e.Finish? && Step(s, e, s') && OneOk(s, e.id)
    ensures OneOk(s', e.id)
  {
    var job := s.jobs[e.id];
    assert Last(job.history).status == Working;
    assert s.tables.records[e.id] == Last(job.history);
    var ending := job.phase.ending;
    WriteKeepsShape(job, s.now, EndStatus(ending), EndMessage(ending), EndResult(ending), s'.tables.records[e.id]);
    assert Concludes(Last(job.history), ending, s'.tables.records[e.id]);
  }

  /** Every move touches one task at most. */
  lemma OthersKeep(s: System, e: Event, s': System, id: Id)
    requires Step(s, e, s') && OneOk(s, id)
    requires e.Tick? || e.Shutdown? || e.id != id
    ensures OneOk(s', id)
  {
    assert id in s'.jobs <==> id in s.jobs;
    assert id in s.jobs ==> s'.jobs[id] == s.jobs[id];
    assert id in s'.tables.records <==> id in s.tables.records;
    assert id in s.tables.records ==> s'.tables.records[id] == s.tables.records[id];
    assert id in s'.tables.scopes <==> id in s.tables.scopes;
    assert id in s.tables.scopes ==> s'.tables.scopes[id] == s.tables.scopes[id];
    if id in s.jobs && id !in s.tables.records {
      ExpiryIsForGood(Last(s.jobs[id].history), s.now, s'.now);
    }
  }

  lemma StepKeepsInv(s: System, e: Event, s': System)
    requires Inv(s) && Step(s, e, s')
    ensures Inv(s')
  {
    forall id ensures OneOk(s', id) {
      assert OneOk(s, id);
      if e.Tick? || e.Shutdown? || e.id != id {
        OthersKeep(s, e, s', id);
      } else {
        match e
        case Progress(_, _) => ProgressKeepsOne(s, e, s');
        case Finish(_) => FinishKeepsOne(s, e, s');
        case _ =>
      }
    }
  }

  // ---------------------------------------------------------------- theorems

  ghost predicate Run(states: seq<System>, events: seq<Event>) {
    && |states| == |events| + 1
    && states[0] == System(states[0].now, Tables(map[], map[]), map[], false)
    && forall n :: 0 <= n < |events| ==> Step(states[n], events[n], states[n + 1])
  }

  lemma {:induction false} RunKeepsInv(states: seq<System>, events: seq<Event>, n: nat)
    requires Run(states, events) && n < |states|
    ensures Inv(states[n])
  {
    if n > 0 {
      RunKeepsInv(states, events, n - 1);
      StepKeepsInv(states[n - 1], events[n - 1], states[n]);
    }
  }

  /** A task's history is working writes, then at most one final write, which
      says how the job ended; and only a requested cancellation ends it
      cancelled. */
  lemma HistoryShape(states: seq<System>, events: seq<Event>, n: nat, id: Id)
    requires Run(states, events) && n < |states| && id in states[n].jobs
    ensures var job := states[n].jobs[id];
      && Forward(job.history)
      && AllWorking(job.history[..|job.history| - 1])
      && (Terminal(Last(job.history).status) <==> job.phase.Settled?)
      && (job.phase.Settled? ==>
            |job.history| > 1 && Concludes(job.history[|job.history| - 2], job.phase.ending, Last(job.history)))
      && (Last(job.history).status == Cancelled ==> job.asked)
      && (job.phase == Gone ==> states[n].closing)
  {
    RunKeepsInv(states, events, n);
    assert OneOk(states[n], id);
  }

  /** What a poll answers, at any point of any run: the last record written,
      exactly until that record expires, and nothing for an unknown id. */
  lemma PollMeans(states: seq<System>, events: seq<Event>, n: nat, id: Id)
    requires Run(states, events) && n < |states|
    ensures Found(states[n].tables.records, id, states[n].now)
         == if id in states[n].jobs && !Expired(Last(states[n].jobs[id].history), states[n].now)
            then Some(Last(states[n].jobs[id].history)) else None
  {
    RunKeepsInv(states, events, n);
    assert OneOk(states[n], id);
  }

  /** A task that has not settled is always found, however long it runs. */
  lemma WorkingNeverExpires(states: seq<System>, events: seq<Event>, n: nat, id: Id)
    requires Run(states, events) && n < |states| && id in states[n].jobs && !states[n].jobs[id].phase.Settled?
    ensures var found := Found(states[n].tables.records, id, states[n].now);
      found.Some? && found.value.status == Working && TtlFromCreation(found.value) == None
  {
    PollMeans(states, events, n, id);
    HistoryShape(states, events, n, id);
  }

  /** How one job may change in one move. */
  ghost predicate Onward(a: Job, b: Job) {
    && (a.phase.Ended? ==> b.phase in {a.phase, Settled(a.phase.ending)})
    && (a.phase.Settled? ==> b.phase == a.phase && b.history == a.history)
    && |a.history| <= |b.history| && b.history[..|a.history|] == a.history
  }

  lemma OneMoveOnward(s: System, e: Event, s': System, id: Id)
    requires Step(s, e, s') && id in s.jobs && Inv(s)
    ensures id in s'.jobs && Onward(s.jobs[id], s'.jobs[id])
  {
  }

  lemma {:induction false} RunGoesOnward(states: seq<System>, events: seq<Event>, m: nat, n: nat, id: Id)
    requires Run(states, events) && m <= n < |states| && id in states[m].jobs
    ensures id in states[n].jobs && Onward(states[m].jobs[id], states[n].jobs[id])
    ensures states[m].now <= states[n].now
  {
    var h := states[m].jobs[id].history;
    if m == n {
      assert h[..|h|] == h;
    } else {
      RunGoesOnward(states, events, m, n - 1, id);
      RunKeepsInv(states, events, n - 1);
      assert Step(states[n - 1], events[n - 1], states[n]);
      OneMoveOnward(states[n - 1], events[n - 1], states[n], id);
      var mid, end := states[n - 1].jobs[id].history, states[n].jobs[id].history;
      assert end[..|h|] == end[..|mid|][..|h|];
    }
  }

  /** A result the job has produced is never lost, to a late cancellation or to
      a shutdown: the task can only go on to its final write, and from then on
      the last record carries the result for good, whatever else happens. */
  lemma ResultNeverLost(states: seq<System>, events: seq<Event>, m: nat, n: nat, id: Id, p: Payload)
    requires Run(states, events) && m <= n < |states|
    requires id in states[m].jobs && EndingOf(states[m].jobs[id].phase) == Some(Produced(p))
    ensures id in states[n].jobs
    ensures In(states[n], id, Ended(Produced(p))) || In(states[n], id, Settled(Produced(p)))
    ensures In(states[n], id, Ended(Produced(p))) ==> Enabled(states[n], Finish(id))
    ensures In(states[n], id, Settled(Produced(p))) ==>
      var last := Last(states[n].jobs[id].history);
      && ShownStatus(last) == Completed && ShownResult(last) == Some(p)
      && (!Expired(last, states[n].now) ==> Found(states[n].tables.records, id, states[n].now) == Some(last))
  {
    RunGoesOnward(states, events, m, n, id);
    PollMeans(states, events, n, id);
    HistoryShape(states, events, n, id);
  }

  // -- what a poll answers, told by the steps of the run alone

  /** The message of the last progress that had one, in steps after the start at
      `from` and before `to`. */
  ghost function SaidLast(events: seq<Event>, id: Id, from: nat, to: nat): Option<Message>
    requires from < to <= |events|
  {
    if to == from + 1 then None
    else
      match events[to - 1]
      case Progress(i, m) => if i == id && m.Some? then m else SaidLast(events, id, from, to - 1)
      case _ => SaidLast(events, id, from, to - 1)
  }

  /** The time of the last progress, or of the start if there was none. */
  ghost function WrittenLast(states: seq<System>, events: seq<Event>, id: Id, from: nat, to: nat): real
    requires from < to <= |events| < |states|
  {
    if to == from + 1 then states[from].now
    else if events[to - 1].Progress? && events[to - 1].id == id then states[to - 1].now
    else WrittenLast(states, events, id, from, to - 1)
  }

  /** The one move that changes the record of a running task: it stamps the time
      of the step and keeps the rest, but for a new message. */
  lemma ProgressIsStamped(s: System, e: Event, s': System, id: Id)
    requires Inv(s) && Step(s, e, s') && id in s.jobs && !s.jobs[id].phase.Settled?
    requires !(e.Finish? && e.id == id)
    ensures id in s'.jobs
    ensures var before, after := Last(s.jobs[id].history), Last(s'.jobs[id].history);
      if e.Progress? && e.id == id then
        after == Record(Working, before.created, s.now, before.ttlMs,
                        if e.message.Some? then e.message else before.message, None)
      else after == before
  {
    assert OneOk(s, id);
    assert Last(s.jobs[id].history).status == Working;
  }

  /** The record of a running task, from its start and its progress. */
  lemma {:induction false} RunningRecord(states: seq<System>, events: seq<Event>, j: nat, n: nat, id: Id,
                                         ttl: Option<int>)
    requires Run(states, events) && j < n <= |events| && events[j] == Start(id, ttl)
    requires id in states[n].jobs && !states[n].jobs[id].phase.Settled?
    ensures Last(states[n].jobs[id].history)
         == Record(Working, states[j].now, WrittenLast(states, events, id, j, n), ttl, SaidLast(events, id, j, n), None)
  {
    assert Step(states[n - 1], events[n - 1], states[n]);
    if n > j + 1 {
      RunGoesOnward(states, events, j + 1, n - 1, id);
      RunKeepsInv(states, events, n - 1);
      OneMoveOnward(states[n - 1], events[n - 1], states[n], id);
      RunningRecord(states, events, j, n - 1, id, ttl);
      ProgressIsStamped(states[n - 1], events[n - 1], states[n], id);
    }
  }

  /** A poll of a task that has not settled, however long ago it started, and
      what a client is shown of it. */
  lemma PollBeforeSettling(states: seq<System>, events: seq<Event>, j: nat, n: nat, id: Id, ttl: Option<int>)
    requires Run(states, events) && j < n <= |events| && events[j] == Start(id, ttl)
    requires forall k :: j < k < n ==> events[k] != Finish(id)
    ensures Found(states[n].tables.records, id, states[n].now)
         == Some(Record(Working, states[j].now, WrittenLast(states, events, id, j, n), ttl,
                        SaidLast(events, id, j, n), None))
    ensures var r := Found(states[n].tables.records, id, states[n].now).value;
      ShownStatus(r) == Working && ShownResult(r) == None && TtlFromCreation(r) == None
  {
    NotSettled(states, events, j, n, id, ttl);
    RunningRecord(states, events, j, n, id, ttl);
    PollMeans(states, events, n, id);
  }

  lemma {:induction false} NotSettled(states: seq<System>, events: seq<Event>, j: nat, n: nat, id: Id, ttl: Option<int>)
    requires Run(states, events) && j < n <= |events| && events[j] == Start(id, ttl)
    requires forall k :: j < k < n ==> events[k] != Finish(id)
    ensures id in states[n].jobs && !states[n].jobs[id].phase.Settled?
  {
    assert Step(states[n - 1], events[n - 1], states[n]);
    if n > j + 1 {
      NotSettled(states, events, j, n - 1, id, ttl);
    }
  }

  /** The final record of a task: created, said and settled at those times. */
  ghost function Concluded(e: Ending, created: real, settled: real, ttl: Option<int>, said: Option<Message>): Record {
    match e
    case Produced(p) => Record(if p.isError then Failed else Completed, created, settled, ttl, said, Some(p))
    case Stopped => Record(Cancelled, created, settled, ttl, Some(CancelledMessage), None)
    case Raised(m) => Record(Failed, created, settled, ttl, Some(m), None)
  }

  /** The final write stamps the time of the step that makes it. */
  lemma FinishIsStamped(s: System, e: Event, s': System, id: Id)
    requires Inv(s) && Step(s, e, s') && e == Finish(id)
    ensures var job, before := s.jobs[id], Last(s.jobs[id].history);
      var ending := job.phase.ending;
      var final := Concluded(ending, before.created, s.now, before.ttlMs, before.message);
      s'.jobs[id] == Job(Settled(ending), job.history + [final], job.asked)
  {
    assert OneOk(s, id);
    assert Last(s.jobs[id].history).status == Working;
  }

  /** A settled task is found exactly until its retention has passed since the
      step that settled it, with the record that its start, its progress and its
      end call for. */
  lemma SettledUntilTtl(states: seq<System>, events: seq<Event>, j: nat, i: nat, k: nat, n: nat, id: Id,
                        ttl: Option<int>, e: Ending)
    requires Run(states, events) && j < i < k < n < |states|
    requires events[j] == Start(id, ttl) && events[i] == End(id, e) && events[k] == Finish(id)
    ensures Found(states[n].tables.records, id, states[n].now)
         == if ttl.None? || (states[n].now - states[k].now) * 1000.0 <= ttl.value as real
            then Some(Concluded(e, states[j].now, states[k].now, ttl, SaidLast(events, id, j, k))) else None
  {
    assert Step(states[i], events[i], states[i + 1]) && Step(states[k], events[k], states[k + 1]);
    RunGoesOnward(states, events, i + 1, k, id);
    RunningRecord(states, events, j, k, id, ttl);
    RunKeepsInv(states, events, k);
    FinishIsStamped(states[k], events[k], states[k + 1], id);
    RunGoesOnward(states, events, k + 1, n, id);
    PollMeans(states, events, n, id);
  }

  /** What a client is shown of the final record. */
  lemma ShownAfterSettling(e: Ending, created: real, settled: real, ttl: Option<int>, said: Option<Message>)
    ensures var r := Concluded(e, created, settled, ttl, said);
      && (e.Produced? ==> ShownStatus(r) == Completed && ShownResult(r) == Some(e.payload))
      && (e.Stopped? ==> ShownStatus(r) == Cancelled && ShownResult(r) == None)
      && (e.Raised? ==> ShownStatus(r) == Failed && ShownResult(r) == None)
      && (TtlFromCreation(r).Some? <==> ttl.Some?)
  {
  }

  /** A settled task that is not found once is never found again. */
  lemma GoneForGood(states: seq<System>, events: seq<Event>, m: nat, n: nat, id: Id)
    requires Run(states, events) && m <= n < |states| && id in states[m].jobs
    requires Found(states[m].tables.records, id, states[m].now) == None
    ensures Found(states[n].tables.records, id, states[n].now) == None
  {
    PollMeans(states, events, m, id);
    HistoryShape(states, events, m, id);
    RunGoesOnward(states, events, m, n, id);
    PollMeans(states, events, n, id);
  }

  /** What a client was told holds: a settled record, once seen, is found at
      least until the advertised time, and is gone a millisecond after it. */
  lemma AdvertisedIsHonest(states: seq<System>, events: seq<Event>, m: nat, n: nat, id: Id, seen: Record)
    requires Run(states, events) && m <= n < |states|
    requires Found(states[m].tables.records, id, states[m].now) == Some(seen)
    requires TtlFromCreation(seen).Some?
    ensures var told := TtlFromCreation(seen).value as real;
      && ((states[n].now - seen.created) * 1000.0 <= told ==>
            Found(states[n].tables.records, id, states[n].now) == Some(seen))
      && ((states[n].now - seen.created) * 1000.0 >= told + 1.0 ==>
            Found(states[n].tables.records, id, states[n].now) == None)
  {
    PollMeans(states, events, m, id);
    HistoryShape(states, events, m, id);
    RunGoesOnward(states, events, m, n, id);
    PollMeans(states, events, n, id);
    AdvertisedIsTight(seen, states[n].now);
  }
}
