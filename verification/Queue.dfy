/** queue/client.go and queue/worker.go: EnqueueIngest as the interleaved atomic steps of any number of callers
    and workers over asynq's task table. */
module Queue {
  import opened Text

  datatype TaskState = Scheduled | Pending | Active | Retry | Archived | Completed

  /** `createdAt` is history: the step at which this task was enqueued. */
  datatype Task = Task(state: TaskState, retried: nat, createdAt: nat)

  const MAX_RETRY := 5

  // ---------------------------------------------------------------- what a conflict means

  predicate IsTerminal(state: TaskState) {
    state == Archived || state == Completed
  }

  datatype ConflictAction = CoalesceTrigger | ClearAndRetry

  /** No info stands for an inspection that failed. */
  function ClassifyConflict(info: Option<TaskState>): ConflictAction {
    if info.None? then CoalesceTrigger
    else if IsTerminal(info.value) then ClearAndRetry
    else CoalesceTrigger
  }

  // ---------------------------------------------------------------- what an attempt's error means

  /** The error handleIngest returns, as asynq's server tells errors apart. */
  datatype Attempt = Success | SkipRetry | Failure | Canceled

  datatype RunError = NoError | ContextCanceled | OtherError

  function HandleIngest(decodes: bool, run: RunError): Attempt {
    if !decodes then SkipRetry
    else match run
      case NoError => Success
      case ContextCanceled => Canceled
      case OtherError => Failure
  }

  predicate IsFailure(a: Attempt) {
    !a.Canceled?
  }

  /** Where an attempt leaves its task; None when it is removed. `kept` is a success retained for a while. */
  function AfterAttempt(t: Task, a: Attempt, kept: bool): Option<Task> {
    if a.Success? then (if kept then Some(t.(state := Completed)) else None)
    else if !IsFailure(a) then Some(t.(state := Retry))
    else if a.SkipRetry? || t.retried >= MAX_RETRY then Some(t.(state := Archived))
    else Some(t.(state := Retry, retried := t.retried + 1))
  }

  // ---------------------------------------------------------------- the machine

  /** What EnqueueIngest returns; every reply but Failed is nil. */
  datatype Reply =
    | Enqueued
    | Coalesced(state: TaskState)
    | Unreadable
    | Reenqueued
    | CoalescedAfterClearing
    | Failed

  datatype Pc =
    | AtEnqueue
    | AtInspect
    | AtDelete
    | AtReenqueue(clearedAt: nat)
    | Returned(reply: Reply)

  /** One call of EnqueueIngest: the task id it is for and the step its trigger arrived at. */
  datatype Caller = Caller(id: string, since: nat, pc: Pc)

  /** `now` counts steps. `started` is the last step an attempt of an id started at, and `abandoned` the last
      step at which a call for the id failed on its way from clearing to re-enqueueing; both are history. */
  datatype State = State(
    now: nat, tasks: map<string, Task>, started: map<string, nat>, abandoned: map<string, nat>,
    callers: map<int, Caller>, workers: map<int, string>)

  datatype Event =
    | Call(c: int, id: string)
    | Enqueue(c: int, outcome: Outcome)
    | Inspect(c: int, readable: bool)
    | Delete(c: int, outcome: Outcome)
    | Reenqueue(c: int, outcome: Outcome)
    | Forward(id: string)
    | Start(worker: int, id: string)
    | Return(worker: int, attempt: Attempt, kept: bool)
    | CrashWorker(worker: int)
    | Recover(id: string)
    | Expire(id: string)

  const INITIAL := State(0, map[], map[], map[], map[], map[])

  predicate Waiting(state: TaskState) {
    state == Scheduled || state == Pending || state == Retry
  }

  function Put(s: State, id: string): map<string, Task> {
    s.tasks[id := Task(Scheduled, 0, s.now)]
  }

  function Step(s: State, c: int, pc: Pc): State
    requires c in s.callers
  {
    s.(callers := s.callers[c := s.callers[c].(pc := pc)])
  }

  function ApplyEnqueue(s: State, c: int, o: Outcome): State
    requires c in s.callers
  {
    var id := s.callers[c].id;
    if o.Lost? then Step(s, c, Returned(Failed))
    else if id in s.tasks then Step(s, c, if o.Done? then AtInspect else Returned(Failed))
    else Step(s.(tasks := Put(s, id)), c, Returned(if o.Done? then Enqueued else Failed))
  }

  function ApplyInspect(s: State, c: int, readable: bool): State
    requires c in s.callers
  {
    var id := s.callers[c].id;
    var info := if readable && id in s.tasks then Some(s.tasks[id].state) else None;
    if ClassifyConflict(info) == ClearAndRetry then Step(s, c, AtDelete)
    else if info.None? then Step(s, c, Returned(Unreadable))
    else Step(s, c, Returned(Coalesced(info.value)))
  }

  /** DeleteTask refuses an active task; a task that is gone counts as cleared. */
  function ApplyDelete(s: State, c: int, o: Outcome): State
    requires c in s.callers
  {
    var id := s.callers[c].id;
    if id in s.tasks && s.tasks[id].state == Active then Step(s, c, Returned(Failed))
    else if o.Lost? then Step(s, c, Returned(Failed))
    else
      var cleared := s.(tasks := s.tasks - {id});
      if o.Done? then Step(cleared, c, AtReenqueue(s.now))
      else Step(cleared.(abandoned := s.abandoned[id := s.now]), c, Returned(Failed))
  }

  function ApplyReenqueue(s: State, c: int, o: Outcome): State
    requires c in s.callers
  {
    var id := s.callers[c].id;
    if o.Lost? then Step(s.(abandoned := s.abandoned[id := s.now]), c, Returned(Failed))
    else if id in s.tasks then Step(s, c, Returned(if o.Done? then CoalescedAfterClearing else Failed))
    else Step(s.(tasks := Put(s, id)), c, Returned(if o.Done? then Reenqueued else Failed))
  }

  function SetState(s: State, id: string, state: TaskState): State
    requires id in s.tasks
  {
    s.(tasks := s.tasks[id := s.tasks[id].(state := state)])
  }

  function Ended(s: State, id: string, a: Attempt, kept: bool): map<string, Task>
    requires id in s.tasks
  {
    var t := AfterAttempt(s.tasks[id], a, kept);
    if t.Some? then s.tasks[id := t.value] else s.tasks - {id}
  }

  predicate At(s: State, c: int, pc: Pc) {
    c in s.callers && s.callers[c].pc == pc
  }

  /** An event that is not possible in the state only lets the step pass. */
  function Act(s: State, e: Event): State {
    match e
    case Call(c, id) => if c in s.callers then s else s.(callers := s.callers[c := Caller(id, s.now, AtEnqueue)])
    case Enqueue(c, o) => if At(s, c, AtEnqueue) then ApplyEnqueue(s, c, o) else s
    case Inspect(c, readable) => if At(s, c, AtInspect) then ApplyInspect(s, c, readable) else s
    case Delete(c, o) => if At(s, c, AtDelete) then ApplyDelete(s, c, o) else s
    case Reenqueue(c, o) => if c in s.callers && s.callers[c].pc.AtReenqueue? then ApplyReenqueue(s, c, o) else s
    case Forward(id) => if id in s.tasks && s.tasks[id].state in {Scheduled, Retry} then SetState(s, id, Pending) else s
    case Start(w, id) =>
      if w !in s.workers && id in s.tasks && s.tasks[id].state == Pending
      then SetState(s, id, Active).(started := s.started[id := s.now], workers := s.workers[w := id]) else s
    case Return(w, a, kept) =>
      if w in s.workers && s.workers[w] in s.tasks && s.tasks[s.workers[w]].state == Active
      then s.(tasks := Ended(s, s.workers[w], a, kept), workers := s.workers - {w}) else s
    case CrashWorker(w) => s.(workers := s.workers - {w})
    case Recover(id) =>
      if id in s.tasks && s.tasks[id].state == Active && (forall w :: w in s.workers ==> s.workers[w] != id)
      then s.(tasks := Ended(s, id, Failure, false)) else s
    case Expire(id) => if id in s.tasks && IsTerminal(s.tasks[id].state) then s.(tasks := s.tasks - {id}) else s
  }

  function Apply(s: State, e: Event): State {
    Act(s, e).(now := s.now + 1)
  }

  function Run(s: State, events: seq<Event>): State
    decreases |events|
  {
    if events == [] then s else Run(Apply(s, events[0]), events[1..])
  }

  // ---------------------------------------------------------------- no trigger is lost

  predicate After(m: map<string, nat>, id: string, t: nat) {
    id in m && m[id] > t
  }

  predicate GapAfter(s: State, c: int, id: string, t: nat) {
    c in s.callers && s.callers[c].id == id && s.callers[c].pc.AtReenqueue? && s.callers[c].pc.clearedAt > t
  }

  /** A run is still to come, or one started after step t, or a caller that cleared the id after t is about to
      enqueue it again, or such a caller failed. */
  ghost predicate Covered(s: State, id: string, t: nat) {
    || (id in s.tasks && Waiting(s.tasks[id].state))
    || After(s.started, id, t)
    || (exists c :: GapAfter(s, c, id, t))
    || After(s.abandoned, id, t)
  }

  /** The replies that promise a run: nil, and not for an active or unreadable task. */
  predicate Promises(r: Reply) {
    r.Enqueued? || (r.Coalesced? && r.state != Active) || r.Reenqueued? || r.CoalescedAfterClearing?
  }

  /** A task that is not waiting was started after it was created. */
  predicate Started(s: State, id: string) {
    id in s.tasks && !Waiting(s.tasks[id].state) ==> After(s.started, id, s.tasks[id].createdAt)
  }

  predicate Times(s: State) {
    && (forall id :: id in s.tasks ==> s.tasks[id].createdAt < s.now)
    && (forall id :: id in s.started ==> s.started[id] < s.now)
    && (forall id :: id in s.abandoned ==> s.abandoned[id] < s.now)
    && (forall c :: c in s.callers ==> s.callers[c].since < s.now)
    && (forall c :: c in s.callers && s.callers[c].pc.AtReenqueue? ==> s.callers[c].since < s.callers[c].pc.clearedAt < s.now)
  }

  /** While a caller is between clearing and re-enqueueing, whatever task the id has is newer than the clearing. */
  predicate Fresh(s: State, c: int) {
    c in s.callers && s.callers[c].pc.AtReenqueue? && s.callers[c].id in s.tasks ==>
      s.tasks[s.callers[c].id].createdAt > s.callers[c].pc.clearedAt
  }

  /** A worker's task is active, and no other worker has it. */
  predicate OneRunEach(s: State) {
    && (forall w :: w in s.workers ==> s.workers[w] in s.tasks && s.tasks[s.workers[w]].state == Active)
    && (forall v, w :: v in s.workers && w in s.workers && s.workers[v] == s.workers[w] ==> v == w)
  }

  ghost predicate Kept(s: State, c: int) {
    c in s.callers && s.callers[c].pc.Returned? && Promises(s.callers[c].pc.reply) ==> Covered(s, s.callers[c].id, s.callers[c].since)
  }

  ghost predicate Inv(s: State) {
    && Times(s) && OneRunEach(s)
    && (forall id :: Started(s, id))
    && (forall c :: Fresh(s, c) && Kept(s, c))
  }

  // What one step does to one task and to one caller.

  predicate GapAt(s: State, c: int, id: string, at: nat) {
    c in s.callers && s.callers[c].id == id && s.callers[c].pc == AtReenqueue(at)
  }

  predicate AbandonedAt(s: State, id: string, at: nat) {
    id in s.abandoned && s.abandoned[id] == at
  }

  predicate StartedAt(s: State, id: string, at: nat) {
    id in s.started && s.started[id] == at
  }

  /** A task is created scheduled, keeps its creation step, turns from waiting only by starting, and while
      waiting is removed only by a caller's clearing. */
  predicate TaskMoves(s: State, r: State, id: string) {
    && (id in r.tasks && id !in s.tasks ==> r.tasks[id] == Task(Scheduled, 0, s.now))
    && (id in r.tasks && id in s.tasks ==>
          && r.tasks[id].createdAt == s.tasks[id].createdAt
          && (Waiting(r.tasks[id].state) || !Waiting(s.tasks[id].state) || StartedAt(r, id, s.now)))
  }

  predicate TaskLeaves(s: State, r: State, e: Event, id: string) {
    id in s.tasks && id !in r.tasks && Waiting(s.tasks[id].state) ==>
      AbandonedAt(r, id, s.now) || (e.Delete? && GapAt(r, e.c, id, s.now))
  }

  /** Whoever leaves the gap leaves a task behind, the one there was or a new one, or is recorded as failed. */
  predicate GapClosed(s: State, r: State, id: string) {
    || (id in r.tasks && (id in s.tasks ==> r.tasks[id] == s.tasks[id]))
    || AbandonedAt(r, id, s.now)
  }

  predicate CallerMoves(s: State, r: State, c: int) {
    c in s.callers ==>
      && c in r.callers && r.callers[c].id == s.callers[c].id && r.callers[c].since == s.callers[c].since
      && (r.callers[c].pc != s.callers[c].pc ==>
            && var id := s.callers[c].id;
            && !s.callers[c].pc.Returned?
            && (r.callers[c].pc.AtReenqueue? ==> r.callers[c].pc == AtReenqueue(s.now) && id !in r.tasks)
            && (s.callers[c].pc.AtReenqueue? ==> r.callers[c].pc.Returned? && GapClosed(s, r, id))
            && (r.callers[c].pc.Returned? && Promises(r.callers[c].pc.reply) && !s.callers[c].pc.AtReenqueue? ==>
                  id in r.tasks && Waiting(r.tasks[id].state)))
  }

  predicate CallerArrives(s: State, r: State, c: int) {
    c in r.callers && c !in s.callers ==> r.callers[c].since == s.now && r.callers[c].pc == AtEnqueue
  }

  predicate HistoryMoves(s: State, r: State, id: string) {
    && (id in s.started ==> id in r.started)
    && (id in r.started ==> StartedAt(r, id, s.now) || (id in s.started && r.started[id] == s.started[id]))
    && (id in s.abandoned ==> id in r.abandoned)
    && (id in r.abandoned ==> AbandonedAt(r, id, s.now) || (id in s.abandoned && r.abandoned[id] == s.abandoned[id]))
  }

  predicate TasksMove(s: State, r: State, e: Event, id: string) {
    TaskMoves(s, r, id) && TaskLeaves(s, r, e, id) && HistoryMoves(s, r, id)
  }

  predicate CallersMove(s: State, r: State, c: int) {
    CallerMoves(s, r, c) && CallerArrives(s, r, c)
  }

  predicate Moves(s: State, r: State, e: Event, c: int, id: string) {
    TasksMove(s, r, e, id) && CallersMove(s, r, c)
  }

  lemma EnqueueTasks(s: State, x: int, o: Outcome, id: string)
    ensures TasksMove(s, Act(s, Enqueue(x, o)), Enqueue(x, o), id)
  {
  }

  lemma EnqueueCallers(s: State, x: int, o: Outcome, c: int)
    ensures CallersMove(s, Act(s, Enqueue(x, o)), c)
  {
  }

  lemma InspectTasks(s: State, x: int, readable: bool, id: string)
    ensures TasksMove(s, Act(s, Inspect(x, readable)), Inspect(x, readable), id)
  {
  }

  lemma InspectCallers(s: State, x: int, readable: bool, c: int)
    ensures CallersMove(s, Act(s, Inspect(x, readable)), c)
  {
  }

  lemma DeleteTasks(s: State, x: int, o: Outcome, id: string)
    ensures TasksMove(s, Act(s, Delete(x, o)), Delete(x, o), id)
  {
  }

  lemma DeleteCallers(s: State, x: int, o: Outcome, c: int)
    ensures CallersMove(s, Act(s, Delete(x, o)), c)
  {
  }

  lemma ReenqueueTasks(s: State, x: int, o: Outcome, id: string)
    ensures TasksMove(s, Act(s, Reenqueue(x, o)), Reenqueue(x, o), id)
  {
  }

  lemma ReenqueueCallers(s: State, x: int, o: Outcome, c: int)
    ensures CallersMove(s, Act(s, Reenqueue(x, o)), c)
  {
  }

  predicate WorkerEvent(e: Event) {
    e.Forward? || e.Start? || e.Return? || e.CrashWorker? || e.Recover? || e.Expire?
  }

  lemma WorkerTasks(s: State, e: Event, id: string)
    requires WorkerEvent(e)
    ensures TasksMove(s, Act(s, e), e, id)
  {
  }

  lemma WorkerCallers(s: State, e: Event)
    requires WorkerEvent(e)
    ensures Act(s, e).callers == s.callers
  {
  }

  lemma StepTasks(s: State, e: Event, id: string)
    ensures TasksMove(s, Act(s, e), e, id)
  {
    match e
    case Call(x, i) =>
    case Enqueue(x, o) => EnqueueTasks(s, x, o, id);
    case Inspect(x, readable) => InspectTasks(s, x, readable, id);
    case Delete(x, o) => DeleteTasks(s, x, o, id);
    case Reenqueue(x, o) => ReenqueueTasks(s, x, o, id);
    case _ => WorkerTasks(s, e, id);
  }

  lemma StepCallers(s: State, e: Event, c: int)
    ensures CallersMove(s, Act(s, e), c)
  {
    match e
    case Call(x, i) =>
    case Enqueue(x, o) => EnqueueCallers(s, x, o, c);
    case Inspect(x, readable) => InspectCallers(s, x, readable, c);
    case Delete(x, o) => DeleteCallers(s, x, o, c);
    case Reenqueue(x, o) => ReenqueueCallers(s, x, o, c);
    case _ => WorkerCallers(s, e);
  }

  // Any step that moves tasks and callers this way keeps every promise.

  ghost predicate AllMove(s: State, r: State, e: Event) {
    forall c, id :: Moves(s, r, e, c, id)
  }

  function Tick(s: State, r: State): State {
    r.(now := s.now + 1)
  }

  lemma CoveredStep(s: State, r: State, e: Event, id: string, t: nat)
    requires Inv(s) && AllMove(s, r, e) && t < s.now && Covered(s, id, t)
    ensures Covered(Tick(s, r), id, t)
  {
    var n := Tick(s, r);
    assert Moves(s, r, e, 0, id);
    if id in s.tasks && Waiting(s.tasks[id].state) {
      if id !in r.tasks && e.Delete? && GapAt(r, e.c, id, s.now) {
        assert GapAfter(n, e.c, id, t);
      }
    } else if c :| GapAfter(s, c, id, t) {
      GapStep(s, r, e, c, id, t);
    }
  }

  /** A gap closes onto a task that is newer than the clearing: still waiting, or started since. */
  lemma GapStep(s: State, r: State, e: Event, c: int, id: string, t: nat)
    requires Inv(s) && AllMove(s, r, e) && t < s.now && GapAfter(s, c, id, t)
    ensures Covered(Tick(s, r), id, t)
  {
    assert Moves(s, r, e, c, id);
    assert Fresh(s, c) && Started(s, id);
    if r.callers[c].pc == s.callers[c].pc {
      assert GapAfter(Tick(s, r), c, id, t);
    }
  }

  lemma KeptStep(s: State, r: State, e: Event, c: int)
    requires Inv(s) && AllMove(s, r, e)
    ensures Kept(Tick(s, r), c)
  {
    if c in s.callers {
      var id, t := s.callers[c].id, s.callers[c].since;
      assert Moves(s, r, e, c, id) && Kept(s, c);
      if s.callers[c].pc.Returned? && Promises(s.callers[c].pc.reply) {
        CoveredStep(s, r, e, id, t);
      } else if s.callers[c].pc.AtReenqueue? {
        assert GapAfter(s, c, id, t);
        GapStep(s, r, e, c, id, t);
      }
    } else {
      assert Moves(s, r, e, c, "");
    }
  }

  lemma FreshStep(s: State, r: State, e: Event, c: int)
    requires Inv(s) && AllMove(s, r, e)
    ensures Fresh(Tick(s, r), c)
  {
    if c in s.callers {
      assert Moves(s, r, e, c, s.callers[c].id) && Fresh(s, c);
    } else {
      assert Moves(s, r, e, c, "");
    }
  }

  lemma StartedStep(s: State, r: State, e: Event, id: string)
    requires Inv(s) && AllMove(s, r, e)
    ensures Started(Tick(s, r), id)
  {
    assert Moves(s, r, e, 0, id) && Started(s, id);
  }

  lemma TimesStep(s: State, r: State, e: Event)
    requires Inv(s) && AllMove(s, r, e)
    ensures Times(Tick(s, r))
  {
    forall id ensures id in r.tasks ==> r.tasks[id].createdAt <= s.now {
      assert Moves(s, r, e, 0, id);
    }
    forall id ensures (id in r.started ==> r.started[id] <= s.now) && (id in r.abandoned ==> r.abandoned[id] <= s.now) {
      assert Moves(s, r, e, 0, id);
    }
    forall c | c in r.callers
      ensures r.callers[c].since <= s.now
      ensures r.callers[c].pc.AtReenqueue? ==> r.callers[c].since < r.callers[c].pc.clearedAt <= s.now
    {
      assert Moves(s, r, e, c, "");
    }
  }

  /** No caller touches a worker or an active task. */
  predicate ActiveKept(s: State, r: State) {
    && r.workers == s.workers
    && forall id :: id in s.tasks && s.tasks[id].state == Active ==> id in r.tasks && r.tasks[id].state == Active
  }

  lemma EnqueueKeepsActive(s: State, x: int, o: Outcome)
    ensures ActiveKept(s, Act(s, Enqueue(x, o)))
  {
  }

  lemma InspectKeepsActive(s: State, x: int, readable: bool)
    ensures ActiveKept(s, Act(s, Inspect(x, readable)))
  {
  }

  lemma DeleteKeepsActive(s: State, x: int, o: Outcome)
    ensures ActiveKept(s, Act(s, Delete(x, o)))
  {
  }

  lemma ReenqueueKeepsActive(s: State, x: int, o: Outcome)
    ensures ActiveKept(s, Act(s, Reenqueue(x, o)))
  {
  }

  lemma CallerKeepsActive(s: State, e: Event)
    requires !WorkerEvent(e)
    ensures ActiveKept(s, Act(s, e))
  {
    match e
    case Call(x, i) =>
    case Enqueue(x, o) => EnqueueKeepsActive(s, x, o);
    case Inspect(x, readable) => InspectKeepsActive(s, x, readable);
    case Delete(x, o) => DeleteKeepsActive(s, x, o);
    case Reenqueue(x, o) => ReenqueueKeepsActive(s, x, o);
  }

  lemma OneRunWorker(s: State, e: Event)
    requires OneRunEach(s) && WorkerEvent(e)
    ensures OneRunEach(Act(s, e))
  {
  }

  lemma StepKeeps(s: State, e: Event)
    requires Inv(s)
    ensures Inv(Apply(s, e))
  {
    var r := Act(s, e);
    forall c, id ensures Moves(s, r, e, c, id) {
      StepTasks(s, e, id);
      StepCallers(s, e, c);
    }
    if WorkerEvent(e) {
      OneRunWorker(s, e);
    } else {
      CallerKeepsActive(s, e);
    }
    MovesKeep(s, r, e);
  }

  lemma MovesKeep(s: State, r: State, e: Event)
    requires Inv(s) && AllMove(s, r, e) && OneRunEach(r)
    ensures Inv(Tick(s, r))
  {
    TimesStep(s, r, e);
    forall c ensures Fresh(Tick(s, r), c) && Kept(Tick(s, r), c) {
      FreshStep(s, r, e, c);
      KeptStep(s, r, e, c);
    }
    forall id ensures Started(Tick(s, r), id) {
      StartedStep(s, r, e, id);
    }
  }

  lemma {:induction false} RunKeeps(s: State, events: seq<Event>)
    requires Inv(s)
    ensures Inv(Run(s, events))
    decreases |events|
  {
    if events != [] {
      StepKeeps(s, events[0]);
      RunKeeps(Apply(s, events[0]), events[1..]);
    }
  }
}
