/** What module Queue's machine guarantees over every interleaving, and EnqueueIngest itself as code. */
module QueueLaws {
  import opened Text
  import opened Tables
  import opened Queue
  import opened Conflicts

  // ---------------------------------------------------------------- task ids

  function IngestTaskID(l: Label): string {
    "ingest:" + l.0 + "/" + l.1
  }

  /** ownerName: the parts around the first slash, if both are there. */
  function OwnerName(fullName: string): Option<Label> {
    var i := FirstSlash(fullName);
    if i < |fullName| && i != 0 && i + 1 < |fullName| then Some((fullName[..i], fullName[i + 1..])) else None
  }

  function FirstSlash(s: string): (i: nat)
    ensures i <= |s| && '/' !in s[..i] && (i < |s| ==> s[i] == '/')
  {
    if s == "" || s[0] == '/' then 0
    else
      var i := 1 + FirstSlash(s[1..]);
      assert s[..i] == [s[0]] + s[1..][..i - 1];
      i
  }

  lemma {:induction false} FirstSlashIs(a: string, b: string)
    requires '/' !in a
    ensures FirstSlash(a + "/" + b) == |a|
  {
    if a == "" {
      assert (a + "/" + b)[0] == '/';
    } else {
      assert (a + "/" + b)[1..] == a[1..] + "/" + b;
      assert a[0] in a && forall c :: c in a[1..] ==> c in a;
      FirstSlashIs(a[1..], b);
    }
  }

  /** A full name is taken apart exactly when it is an owner without slashes, a slash and a name, both non-empty. */
  lemma OwnerNameIff(fullName: string, l: Label)
    ensures OwnerName(fullName) == Some(l) <==>
            fullName == l.0 + "/" + l.1 && '/' !in l.0 && l.0 != "" && l.1 != ""
  {
    if fullName == l.0 + "/" + l.1 && '/' !in l.0 {
      FirstSlashIs(l.0, l.1);
      assert fullName[..|l.0|] == l.0 && fullName[|l.0| + 1..] == l.1;
    }
  }

  /** Repos with slash-free owners never share a task id. */
  lemma TaskIDInjective(a: Label, b: Label)
    requires '/' !in a.0 && '/' !in b.0
    ensures IngestTaskID(a) == IngestTaskID(b) <==> a == b
  {
    if IngestTaskID(a) == IngestTaskID(b) {
      FirstSlashIs(a.0, a.1);
      FirstSlashIs(b.0, b.1);
      var rest := a.0 + "/" + a.1;
      assert IngestTaskID(a) == "ingest:" + rest && IngestTaskID(b) == "ingest:" + (b.0 + "/" + b.1);
      assert IngestTaskID(a)[7..] == rest && IngestTaskID(b)[7..] == b.0 + "/" + b.1;
      assert rest[..|a.0|] == a.0 && rest[|a.0| + 1..] == a.1;
      assert rest[..|b.0|] == b.0 && rest[|b.0| + 1..] == b.1;
    }
  }

  /** With a slash in an owner two repos can. */
  lemma TaskIDNeedsPlainOwners()
    ensures IngestTaskID(("a", "b/c")) == IngestTaskID(("a/b", "c"))
  {
  }

  // ---------------------------------------------------------------- over every run

  lemma Reachable(events: seq<Event>)
    ensures Inv(Run(INITIAL, events))
  {
    RunKeeps(INITIAL, events);
  }

  predicate Nil(r: Reply) {
    r != Failed
  }

  /** The coalescing EnqueueIngest itself calls a gap: the task was active, or its state could not be read. */
  predicate Exempt(r: Reply) {
    r == Coalesced(Active) || r == Unreadable
  }

  /** However any number of callers, workers, crashes and expiries interleave: from the moment a call returns nil
      and ever after, unless it saw an active task or could not read the state, a run is still to come, or one
      started after the trigger, or a caller that cleared the id after the trigger is about to enqueue it, or a
      call failed in that position because of a Redis error. */
  lemma NoTriggerLost(events: seq<Event>, c: int)
    requires var s := Run(INITIAL, events);
             c in s.callers && s.callers[c].pc.Returned? && Nil(s.callers[c].pc.reply) && !Exempt(s.callers[c].pc.reply)
    ensures var s := Run(INITIAL, events); Covered(s, s.callers[c].id, s.callers[c].since)
  {
    Reachable(events);
    assert Kept(Run(INITIAL, events), c);
  }

  predicate Faultless(e: Event) {
    match e
    case Enqueue(_, o) => o.Done?
    case Delete(_, o) => o.Done?
    case Reenqueue(_, o) => o.Done?
    case _ => true
  }

  lemma FaultlessStep(s: State, e: Event)
    requires Faultless(e)
    ensures Apply(s, e).abandoned == s.abandoned
  {
    match e
    case Enqueue(c, o) =>
    case Delete(c, o) =>
    case Reenqueue(c, o) =>
    case _ =>
  }

  lemma {:induction false} NothingAbandoned(s: State, events: seq<Event>)
    requires forall i :: 0 <= i < |events| ==> Faultless(events[i])
    ensures Run(s, events).abandoned == s.abandoned
    decreases |events|
  {
    if events != [] {
      FaultlessStep(s, events[0]);
      assert forall i :: 0 <= i < |events[1..]| ==> events[1..][i] == events[i + 1];
      NothingAbandoned(Apply(s, events[0]), events[1..]);
    }
  }

  /** Without Redis errors one of the first three holds. */
  lemma NoTriggerLostFaultless(events: seq<Event>, c: int)
    requires forall i :: 0 <= i < |events| ==> Faultless(events[i])
    requires var s := Run(INITIAL, events);
             c in s.callers && s.callers[c].pc.Returned? && Nil(s.callers[c].pc.reply) && !Exempt(s.callers[c].pc.reply)
    ensures var s := Run(INITIAL, events);
            var id, t := s.callers[c].id, s.callers[c].since;
            || (id in s.tasks && Waiting(s.tasks[id].state))
            || After(s.started, id, t)
            || exists d :: GapAfter(s, d, id, t)
  {
    NoTriggerLost(events, c);
    NothingAbandoned(INITIAL, events);
  }

  /** No two workers ever run the same repo. */
  lemma OneRunPerRepo(events: seq<Event>, v: int, w: int, a: Label, b: Label)
    requires var s := Run(INITIAL, events);
             && v in s.workers && w in s.workers && v != w
             && s.workers[v] == IngestTaskID(a) && s.workers[w] == IngestTaskID(b)
    ensures a != b
    ensures var s := Run(INITIAL, events);
            s.workers[v] in s.tasks && s.tasks[s.workers[v]].state == Active && s.workers[v] != s.workers[w]
  {
    Reachable(events);
  }

  // ---------------------------------------------------------------- the exceptions are real

  ghost predicate Dropped(s: State, c: int) {
    c in s.callers && s.callers[c].pc.Returned? && Nil(s.callers[c].pc.reply)
    && !Covered(s, s.callers[c].id, s.callers[c].since)
  }

  lemma RunTwo(s: State, d: Event, e: Event)
    ensures Run(s, [d, e]) == Apply(Apply(s, d), e)
  {
    assert [d, e][1..] == [e] && [e][1..] == [];
    assert Run(Apply(s, d), [e]) == Run(Apply(Apply(s, d), e), []);
  }

  /** Caller 0 has scheduled the task. */
  function Scheduled0(id: string): State {
    State(2, map[id := Task(Scheduled, 0, 1)], map[], map[], map[0 := Caller(id, 0, Returned(Enqueued))], map[])
  }

  /** Worker 9 runs it. */
  function Active0(id: string): State {
    State(4, map[id := Task(Active, 0, 1)], map[id := 3], map[], map[0 := Caller(id, 0, Returned(Enqueued))], map[9 := id])
  }

  /** Caller 1 arrives and finds the id taken. */
  function Conflict1(id: string): State {
    Active0(id).(now := 6, callers := map[0 := Caller(id, 0, Returned(Enqueued)), 1 := Caller(id, 4, AtInspect)])
  }

  lemma ScheduledRun(id: string)
    ensures Run(INITIAL, [Call(0, id), Enqueue(0, Done)]) == Scheduled0(id)
  {
    RunTwo(INITIAL, Call(0, id), Enqueue(0, Done));
    var s := Apply(INITIAL, Call(0, id));
    assert s.callers == map[0 := Caller(id, 0, AtEnqueue)] && s.now == 1;
    assert Put(s, id) == map[id := Task(Scheduled, 0, 1)];
    assert s.callers[0 := Caller(id, 0, Returned(Enqueued))] == map[0 := Caller(id, 0, Returned(Enqueued))];
  }

  lemma ActiveRun(id: string)
    ensures Run(Scheduled0(id), [Forward(id), Start(9, id)]) == Active0(id)
  {
    RunTwo(Scheduled0(id), Forward(id), Start(9, id));
    var s := Apply(Scheduled0(id), Forward(id));
    assert s.tasks == map[id := Task(Pending, 0, 1)] && s.now == 3;
    assert s.tasks[id := Task(Active, 0, 1)] == map[id := Task(Active, 0, 1)];
  }

  lemma ConflictRun(id: string)
    ensures Run(Active0(id), [Call(1, id), Enqueue(1, Done)]) == Conflict1(id)
  {
    RunTwo(Active0(id), Call(1, id), Enqueue(1, Done));
    var s := Apply(Active0(id), Call(1, id));
    assert s.callers == map[0 := Caller(id, 0, Returned(Enqueued)), 1 := Caller(id, 4, AtEnqueue)] && s.now == 5;
    assert s.callers[1 := Caller(id, 4, AtInspect)] == Conflict1(id).callers;
  }

  function UpToConflict(id: string): seq<Event> {
    [Call(0, id), Enqueue(0, Done)] + [Forward(id), Start(9, id)] + [Call(1, id), Enqueue(1, Done)]
  }

  lemma UpToConflictRun(id: string)
    ensures Run(INITIAL, UpToConflict(id)) == Conflict1(id)
  {
    var a, b, c := [Call(0, id), Enqueue(0, Done)], [Forward(id), Start(9, id)], [Call(1, id), Enqueue(1, Done)];
    RunConcat(INITIAL, a + b, c);
    RunConcat(INITIAL, a, b);
    ScheduledRun(id);
    ActiveRun(id);
    ConflictRun(id);
  }

  /** A trigger that meets the active run goes nowhere: nil, the run ends, and no other run is to come. */
  lemma ActiveTriggerDropped(id: string)
    ensures var s := Run(INITIAL, UpToConflict(id) + [Inspect(1, true), Return(9, Success, false)]);
            Dropped(s, 1) && s.callers[1].pc.reply == Coalesced(Active)
  {
    UpToConflictRun(id);
    RunConcat(INITIAL, UpToConflict(id), [Inspect(1, true), Return(9, Success, false)]);
    RunTwo(Conflict1(id), Inspect(1, true), Return(9, Success, false));
    var s := Apply(Conflict1(id), Inspect(1, true));
    assert s.callers[1] == Caller(id, 4, Returned(Coalesced(Active)));
    var r := Apply(s, Return(9, Success, false));
    assert id !in r.tasks && r.started == map[id := 3];
  }

  /** So does one whose conflicting task finishes before it is inspected: the inspection finds nothing, which
      reads as coalesced. */
  lemma VanishedTaskDropped(id: string)
    ensures var s := Run(INITIAL, UpToConflict(id) + [Return(9, Success, false), Inspect(1, true)]);
            Dropped(s, 1) && s.callers[1].pc.reply == Unreadable
  {
    UpToConflictRun(id);
    RunConcat(INITIAL, UpToConflict(id), [Return(9, Success, false), Inspect(1, true)]);
    RunTwo(Conflict1(id), Return(9, Success, false), Inspect(1, true));
    var s := Apply(Conflict1(id), Return(9, Success, false));
    assert id !in s.tasks && s.started == map[id := 3];
    var r := Apply(s, Inspect(1, true));
    assert r.callers[1] == Caller(id, 4, Returned(Unreadable)) && r.started == map[id := 3];
  }

  /** A slow caller that saw the finished task may clear the one another caller has scheduled since. That
      caller's promise then rests on the slow one, which puts a task back with its next step. */
  lemma SlowCallerClears(s: State, slow: int, quick: int)
    requires Inv(s) && At(s, slow, AtDelete) && At(s, quick, Returned(Reenqueued))
    requires var id := s.callers[slow].id; s.callers[quick].id == id && id in s.tasks && s.tasks[id].state == Scheduled
    ensures var id := s.callers[slow].id;
            var r := Apply(s, Delete(slow, Done));
            && id !in r.tasks && GapAfter(r, slow, id, s.callers[quick].since) && Kept(r, quick)
            && var t := Apply(r, Reenqueue(slow, Done));
            && id in t.tasks && t.tasks[id].state == Scheduled && At(t, slow, Returned(Reenqueued))
  {
    StepKeeps(s, Delete(slow, Done));
  }

  // ---------------------------------------------------------------- attempts

  /** n failed attempts in a row of a task that starts unretried. */
  function Fails(t: Task, n: nat): Task {
    if n == 0 then t
    else
      var before := Fails(t, n - 1);
      if before.state == Archived then before else AfterAttempt(before, Failure, false).value
  }

  /** A failing task is retried MAX_RETRY times and then archived; a cancelled attempt never costs a retry, and
      a payload that does not decode is archived at once. */
  lemma {:induction false} FailuresArchive(t: Task, n: nat)
    requires t.retried == 0 && t.state == Active
    ensures Fails(t, n) ==
            if n == 0 then t
            else if n <= MAX_RETRY then t.(state := Retry, retried := n)
            else t.(state := Archived, retried := MAX_RETRY)
  {
    if n > 0 {
      FailuresArchive(t, n - 1);
    }
  }

  lemma CanceledIsFree(t: Task, run: RunError, decodes: bool, kept: bool)
    ensures var r := AfterAttempt(t, HandleIngest(decodes, run), kept);
            && (r == Some(t.(state := Retry)) <==> decodes && run == ContextCanceled)
            && (r.Some? && r.value.state == Archived <==> !decodes || (run == OtherError && t.retried >= MAX_RETRY))
            && (r.None? || r.value.state == Completed <==> decodes && run == NoError)
  {
  }

  // ---------------------------------------------------------------- the client, as code

  predicate ByOthers(c: int, e: Event) {
    match e
    case Call(d, _) => d != c
    case Enqueue(d, _) => d != c
    case Inspect(d, _) => d != c
    case Delete(d, _) => d != c
    case Reenqueue(d, _) => d != c
    case _ => true
  }

  predicate AllByOthers(c: int, events: seq<Event>) {
    forall i :: 0 <= i < |events| ==> ByOthers(c, events[i])
  }

  lemma OtherStep(s: State, c: int, e: Event)
    requires ByOthers(c, e) && c in s.callers
    ensures c in Apply(s, e).callers && Apply(s, e).callers[c] == s.callers[c]
  {
    if WorkerEvent(e) {
      OtherWorkerStep(s, c, e);
    } else {
      match e
      case Call(d, i) => assert Act(s, Call(d, i)).callers[c] == s.callers[c];
      case Enqueue(d, o) => assert Act(s, Enqueue(d, o)).callers[c] == s.callers[c];
      case Inspect(d, readable) => assert Act(s, Inspect(d, readable)).callers[c] == s.callers[c];
      case Delete(d, o) => assert Act(s, Delete(d, o)).callers[c] == s.callers[c];
      case Reenqueue(d, o) => assert Act(s, Reenqueue(d, o)).callers[c] == s.callers[c];
    }
  }

  lemma OtherWorkerStep(s: State, c: int, e: Event)
    requires WorkerEvent(e) && c in s.callers
    ensures Act(s, e).callers == s.callers
  {
  }

  lemma {:induction false} OthersKeep(s: State, c: int, events: seq<Event>)
    requires AllByOthers(c, events) && c in s.callers
    ensures c in Run(s, events).callers && Run(s, events).callers[c] == s.callers[c]
    decreases |events|
  {
    if events != [] {
      OtherStep(s, c, events[0]);
      assert forall i :: 0 <= i < |events[1..]| ==> events[1..][i] == events[i + 1];
      OthersKeep(Apply(s, events[0]), c, events[1..]);
    }
  }

  datatype Answer = Accepted | IdTaken | RedisError

  /** What everybody else does between this call's steps, and how Redis answers each step. */
  datatype Surroundings = Surroundings(
    beforeEnqueue: seq<Event>, beforeInspect: seq<Event>, beforeDelete: seq<Event>, beforeReenqueue: seq<Event>,
    enqueue: Outcome, readable: bool, delete: Outcome, reenqueue: Outcome)

  predicate Foreign(c: int, x: Surroundings) {
    AllByOthers(c, x.beforeEnqueue) && AllByOthers(c, x.beforeInspect) && AllByOthers(c, x.beforeDelete) && AllByOthers(c, x.beforeReenqueue)
  }

  /** asynq's shared task table, with the log of every step ever taken on it. */
  class Broker {
    var s: State
    ghost var log: seq<Event>

    ghost predicate Valid()
      reads this
    {
      s == Run(INITIAL, log) && Inv(s)
    }

    constructor ()
      ensures Valid() && log == []
    {
      s := INITIAL;
      log := [];
    }

    method Take(e: Event)
      requires Valid()
      modifies this
      ensures Valid() && log == old(log) + [e] && s == Apply(old(s), e)
    {
      RunSnoc(INITIAL, log, e);
      StepKeeps(s, e);
      s := Apply(s, e);
      log := log + [e];
    }

    /** Other callers' and workers' steps leave this call where it is. */
    method Interfere(c: int, others: seq<Event>)
      requires Valid() && c in s.callers && AllByOthers(c, others)
      modifies this
      ensures Valid() && log == old(log) + others
      ensures c in s.callers && s.callers[c] == old(s).callers[c]
    {
      for i := 0 to |others|
        invariant Valid() && log == old(log) + others[..i]
        invariant c in s.callers && s.callers[c] == old(s).callers[c]
      {
        assert others[..i + 1] == others[..i] + [others[i]];
        OtherStep(s, c, others[i]);
        Take(others[i]);
      }
      assert others[..|others|] == others;
    }

    method Arrive(c: int, id: string)
      requires Valid() && c !in s.callers
      modifies this
      ensures Valid() && log == old(log) + [Call(c, id)]
      ensures c in s.callers && s.callers[c] == Caller(id, old(s).now, AtEnqueue)
    {
      Take(Call(c, id));
    }

    /** EnqueueContext: ErrTaskIDConflict when the id exists in any state. */
    method EnqueueContext(c: int, o: Outcome) returns (a: Answer)
      requires Valid() && At(s, c, AtEnqueue)
      modifies this
      ensures Valid() && log == old(log) + [Enqueue(c, o)]
      ensures a == if !o.Done? then RedisError else if old(s).callers[c].id in old(s).tasks then IdTaken else Accepted
      ensures c in s.callers && s.callers[c] ==
              old(s).callers[c].(pc := if a == Accepted then Returned(Enqueued) else if a == IdTaken then AtInspect else Returned(Failed))
    {
      a := if !o.Done? then RedisError else if s.callers[c].id in s.tasks then IdTaken else Accepted;
      Take(Enqueue(c, o));
    }

    method GetTaskInfo(c: int, readable: bool) returns (info: Option<TaskState>)
      requires Valid() && At(s, c, AtInspect)
      modifies this
      ensures Valid() && log == old(log) + [Inspect(c, readable)] && s == Apply(old(s), Inspect(c, readable))
      ensures info == if readable && old(s).callers[c].id in old(s).tasks then Some(old(s).tasks[old(s).callers[c].id].state) else None
      ensures c in s.callers && s.callers[c] ==
              old(s).callers[c].(pc := if ClassifyConflict(info) == ClearAndRetry then AtDelete
                                       else Returned(if info.None? then Unreadable else Coalesced(info.value)))
    {
      info := if readable && s.callers[c].id in s.tasks then Some(s.tasks[s.callers[c].id].state) else None;
      Take(Inspect(c, readable));
    }

    /** Refused for an active task; a missing task is no error to the caller. */
    method DeleteTask(c: int, o: Outcome) returns (ok: bool)
      requires Valid() && At(s, c, AtDelete)
      modifies this
      ensures Valid() && log == old(log) + [Delete(c, o)]
      ensures var id := old(s).callers[c].id;
              ok == (o.Done? && !(id in old(s).tasks && old(s).tasks[id].state == Active))
      ensures c in s.callers && s.callers[c] ==
              old(s).callers[c].(pc := if ok then AtReenqueue(old(s).now) else Returned(Failed))
    {
      var id := s.callers[c].id;
      ok := o.Done? && !(id in s.tasks && s.tasks[id].state == Active);
      Take(Delete(c, o));
    }

    method EnqueueAgain(c: int, o: Outcome) returns (a: Answer)
      requires Valid() && c in s.callers && s.callers[c].pc.AtReenqueue?
      modifies this
      ensures Valid() && log == old(log) + [Reenqueue(c, o)]
      ensures a == if !o.Done? then RedisError else if old(s).callers[c].id in old(s).tasks then IdTaken else Accepted
      ensures c in s.callers && s.callers[c] ==
              old(s).callers[c].(pc := Returned(if a == Accepted then Reenqueued else if a == IdTaken then CoalescedAfterClearing else Failed))
    {
      a := if !o.Done? then RedisError else if s.callers[c].id in s.tasks then IdTaken else Accepted;
      Take(Reenqueue(c, o));
    }
  }

  /** The call c has returned to its caller: nil exactly when ok. */
  predicate Answered(s: State, c: int, id: string, since: nat, ok: bool) {
    && c in s.callers && s.callers[c].id == id && s.callers[c].since == since
    && s.callers[c].pc.Returned? && (ok <==> Nil(s.callers[c].pc.reply))
  }

  /** Call c deletes and re-enqueues only after it has read a finished task; having read a live one, it does
      neither and answers with that task's state. */
  ghost predicate ClearsRightly(log: seq<Event>, c: int) {
    && (forall j: nat :: Clears(log, j, c) ==> ReadFinished(log, j, c))
    && (forall i: nat, state :: Reads(log, i, c, state) && Live(state) ==>
          At(Before(log, |log|), c, Returned(Coalesced(state))) && forall j: nat :: !Clears(log, j, c))
  }

  lemma AllClearRightly(log: seq<Event>, c: int)
    ensures ClearsRightly(log, c)
  {
    forall j: nat | Clears(log, j, c) ensures ReadFinished(log, j, c) {
      ClearsOnlyFinished(log, j, c);
    }
    forall i: nat, state | Reads(log, i, c, state) && Live(state)
      ensures At(Before(log, |log|), c, Returned(Coalesced(state))) && forall j: nat :: !Clears(log, j, c)
    {
      LiveTaskIsLeftAlone(log, i, c, state);
    }
  }

  ghost predicate MetAnError(log: seq<Event>, c: int) {
    exists j: nat :: j < |log| && ErrsAt(Before(log, j), log[j], c)
  }

  /** What the answer of a call that is over means. */
  lemma CallEnded(s: State, log: seq<Event>, c: int)
    requires s == Run(INITIAL, log) && Inv(s) && c in s.callers && s.callers[c].pc.Returned?
    ensures Promises(s.callers[c].pc.reply) ==> Covered(s, s.callers[c].id, s.callers[c].since)
    ensures ClearsRightly(log, c)
    ensures !Nil(s.callers[c].pc.reply) <==> MetAnError(log, c)
  {
    assert Kept(s, c);
    AllClearRightly(log, c);
    FailsIff(log, |log|, c);
    assert log[..|log|] == log;
  }

  class Client {
    const broker: Broker

    constructor (broker: Broker)
      ensures this.broker == broker
    {
      this.broker := broker;
    }

    method ResolveTaskIDConflict(c: int, x: Surroundings) returns (ok: bool)
      requires broker.Valid() && At(broker.s, c, AtInspect) && Foreign(c, x)
      modifies broker
      ensures broker.Valid() && old(broker.log) <= broker.log
      ensures Answered(broker.s, c, old(broker.s).callers[c].id, old(broker.s).callers[c].since, ok)
      ensures var id, tasks := old(broker.s).callers[c].id, old(broker.s).tasks;
              if x.readable && id in tasks && tasks[id].state in {Archived, Completed}
              then old(broker.log) + [Inspect(c, true)] + x.beforeDelete + [Delete(c, x.delete)] <= broker.log
              else ok && broker.log == old(broker.log) + [Inspect(c, x.readable)] && broker.s.tasks == tasks
                   && broker.s.callers[c].pc.reply == if x.readable && id in tasks then Coalesced(tasks[id].state) else Unreadable
    {
      InspectionIs(broker.s, c, x.readable);
      var info := broker.GetTaskInfo(c, x.readable);
      if ClassifyConflict(info) == CoalesceTrigger {
        return true;
      }
      broker.Interfere(c, x.beforeDelete);
      ok := broker.DeleteTask(c, x.delete);
      if !ok {
        return false;
      }
      broker.Interfere(c, x.beforeReenqueue);
      var a := broker.EnqueueAgain(c, x.reenqueue);
      return a != RedisError;
    }

    method Submit(c: int, id: string, x: Surroundings) returns (a: Answer)
      requires broker.Valid() && c !in broker.s.callers && Foreign(c, x)
      modifies broker
      ensures broker.Valid() && old(broker.log) <= broker.log
      ensures c in broker.s.callers && broker.s.callers[c].id == id && broker.s.callers[c].since == old(broker.s).now
      ensures broker.s.callers[c].pc == if a == Accepted then Returned(Enqueued) else if a == IdTaken then AtInspect else Returned(Failed)
    {
      broker.Arrive(c, id);
      broker.Interfere(c, x.beforeEnqueue);
      a := broker.EnqueueContext(c, x.enqueue);
    }

    /** Whatever runs between its steps, a nil return that saw no active task and could read the state means
        the trigger is covered, and every earlier promise still is. */
    method EnqueueIngest(c: int, l: Label, x: Surroundings) returns (ok: bool)
      requires broker.Valid() && c !in broker.s.callers && Foreign(c, x)
      modifies broker
      ensures broker.Valid() && old(broker.log) <= broker.log
      ensures Answered(broker.s, c, IngestTaskID(l), old(broker.s).now, ok)
      ensures ok && !Exempt(broker.s.callers[c].pc.reply) ==> Covered(broker.s, IngestTaskID(l), old(broker.s).now)
      ensures ClearsRightly(broker.log, c)
      ensures !ok <==> MetAnError(broker.log, c)
    {
      var a := Submit(c, IngestTaskID(l), x);
      if a == Accepted {
        ok := true;
      } else if a == IdTaken {
        broker.Interfere(c, x.beforeInspect);
        ok := ResolveTaskIDConflict(c, x);
      } else {
        ok := false;
      }
      CallEnded(broker.s, broker.log, c);
    }
  }
}
