/** What a taken task id leads to: which tasks a trigger may clear, and when a call fails. */
module Conflicts {
  import opened Text
  import opened Queue

  /** Where a call is on its way; no step takes it back. */
  function Rank(pc: Pc): nat {
    match pc
    case AtEnqueue => 0
    case AtInspect => 1
    case AtDelete => 2
    case AtReenqueue(_) => 3
    case Returned(_) => 4
  }

  /** The steps a call takes itself. */
  predicate StepOf(e: Event, c: int) {
    match e
    case Enqueue(d, _) => d == c
    case Inspect(d, _) => d == c
    case Delete(d, _) => d == c
    case Reenqueue(d, _) => d == c
    case _ => false
  }

  /** Only its own steps move a call, and each moves it forward. */
  lemma StepRank(s: State, e: Event, c: int)
    requires c in s.callers
    ensures c in Apply(s, e).callers && Apply(s, e).callers[c].id == s.callers[c].id
    ensures Apply(s, e).callers[c] != s.callers[c] ==> StepOf(e, c) && Rank(s.callers[c].pc) < Rank(Apply(s, e).callers[c].pc)
  {
    if WorkerEvent(e) {
      WorkerCallers(s, e);
    } else {
      CallerRank(s, e, c);
    }
  }

  predicate Advances(s: State, t: State, e: Event, c: int)
    requires c in s.callers
  {
    && c in t.callers && t.callers[c].id == s.callers[c].id
    && (t.callers[c] != s.callers[c] ==> StepOf(e, c) && Rank(s.callers[c].pc) < Rank(t.callers[c].pc))
  }

  lemma EnqueueRank(s: State, d: int, o: Outcome, c: int)
    requires c in s.callers
    ensures Advances(s, Act(s, Enqueue(d, o)), Enqueue(d, o), c)
  {
  }

  lemma InspectRank(s: State, d: int, readable: bool, c: int)
    requires c in s.callers
    ensures Advances(s, Act(s, Inspect(d, readable)), Inspect(d, readable), c)
  {
  }

  lemma DeleteRank(s: State, d: int, o: Outcome, c: int)
    requires c in s.callers
    ensures Advances(s, Act(s, Delete(d, o)), Delete(d, o), c)
  {
  }

  lemma ReenqueueRank(s: State, d: int, o: Outcome, c: int)
    requires c in s.callers
    ensures Advances(s, Act(s, Reenqueue(d, o)), Reenqueue(d, o), c)
  {
  }

  lemma CallerRank(s: State, e: Event, c: int)
    requires c in s.callers && !WorkerEvent(e)
    ensures Advances(s, Act(s, e), e, c)
  {
    match e
    case Call(d, id) =>
    case Enqueue(d, o) => EnqueueRank(s, d, o, c);
    case Inspect(d, readable) => InspectRank(s, d, readable, c);
    case Delete(d, o) => DeleteRank(s, d, o, c);
    case Reenqueue(d, o) => ReenqueueRank(s, d, o, c);
  }

  lemma {:induction false} RunRank(s: State, events: seq<Event>, c: int)
    requires c in s.callers
    ensures c in Run(s, events).callers && Run(s, events).callers[c].id == s.callers[c].id
    ensures Run(s, events).callers[c] == s.callers[c] || Rank(s.callers[c].pc) < Rank(Run(s, events).callers[c].pc)
    decreases |events|
  {
    if events != [] {
      StepRank(s, events[0], c);
      RunRank(Apply(s, events[0]), events[1..], c);
    }
  }

  lemma {:induction false} RunConcat(s: State, a: seq<Event>, b: seq<Event>)
    ensures Run(s, a + b) == Run(Run(s, a), b)
    decreases |a|
  {
    if a == [] {
      assert a + b == b;
    } else {
      assert (a + b)[1..] == a[1..] + b;
      RunConcat(Apply(s, a[0]), a[1..], b);
    }
  }

  /** The state before step i of a run. */
  function Before(log: seq<Event>, i: nat): State
    requires i <= |log|
  {
    Run(INITIAL, log[..i])
  }

  lemma RunSnoc(s: State, events: seq<Event>, e: Event)
    ensures Run(s, events + [e]) == Apply(Run(s, events), e)
  {
    RunConcat(s, events, [e]);
    assert [e][1..] == [];
    assert Run(Run(s, events), [e]) == Run(Apply(Run(s, events), e), []);
  }

  lemma NextState(log: seq<Event>, i: nat)
    requires i < |log|
    ensures Before(log, i + 1) == Apply(Before(log, i), log[i])
  {
    assert log[..i + 1] == log[..i] + [log[i]];
    RunSnoc(INITIAL, log[..i], log[i]);
  }

  lemma LaterState(log: seq<Event>, i: nat, j: nat)
    requires i <= j <= |log|
    ensures Before(log, j) == Run(Before(log, i), log[i..j])
  {
    assert log[..j] == log[..i] + log[i..j];
    RunConcat(INITIAL, log[..i], log[i..j]);
  }

  // ---------------------------------------------------------------- what the inspection decides

  /** At step i call c inspects the task holding its id, and reads this state. */
  predicate Reads(log: seq<Event>, i: nat, c: int, state: TaskState) {
    && i < |log| && log[i] == Inspect(c, true) && At(Before(log, i), c, AtInspect)
    && var s := Before(log, i);
    s.callers[c].id in s.tasks && s.tasks[s.callers[c].id].state == state
  }

  /** The inspection fails, or finds nothing under the id. */
  predicate ReadsNothing(log: seq<Event>, i: nat, c: int) {
    && i < |log| && log[i].Inspect? && log[i].c == c && At(Before(log, i), c, AtInspect)
    && (log[i].readable ==> Before(log, i).callers[c].id !in Before(log, i).tasks)
  }

  /** At step j call c is at its delete or its re-enqueue and takes it. */
  predicate Clears(log: seq<Event>, j: nat, c: int) {
    && j < |log| && c in Before(log, j).callers
    && ((log[j].Delete? && log[j].c == c && Before(log, j).callers[c].pc.AtDelete?)
        || (log[j].Reenqueue? && log[j].c == c && Before(log, j).callers[c].pc.AtReenqueue?))
  }

  /** The task still holds a run to come or a run under way. */
  predicate Live(state: TaskState) {
    state == Scheduled || state == Pending || state == Retry || state == Active
  }

  /** One inspection: it touches no task, coalesces into one that is waiting or running, naming its state, treats
      one it cannot read as coalesced, and goes on to clear only one that is over. */
  lemma InspectionIs(s: State, c: int, readable: bool)
    requires At(s, c, AtInspect)
    ensures var t, id := Apply(s, Inspect(c, readable)), s.callers[c].id;
            && t.tasks == s.tasks
            && (!readable || id !in s.tasks ==> At(t, c, Returned(Unreadable)))
            && (readable && id in s.tasks && Live(s.tasks[id].state) ==> At(t, c, Returned(Coalesced(s.tasks[id].state))))
            && (readable && id in s.tasks && s.tasks[id].state in {Archived, Completed} ==> At(t, c, AtDelete))
  {
  }

  /** Over any run: a call that reads a live task leaves every task as it was at that step, answers with that very
      state and stays answered so, and neither before nor after takes a step that deletes or enqueues again. */
  lemma LiveTaskIsLeftAlone(log: seq<Event>, i: nat, c: int, state: TaskState)
    requires Reads(log, i, c, state) && Live(state)
    ensures Before(log, i + 1).tasks == Before(log, i).tasks
    ensures forall j :: i < j <= |log| ==> At(Before(log, j), c, Returned(Coalesced(state)))
    ensures forall j: nat :: !Clears(log, j, c)
  {
    InspectionIs(Before(log, i), c, true);
    NextState(log, i);
    forall j | i < j <= |log| ensures At(Before(log, j), c, Returned(Coalesced(state))) {
      LaterState(log, i + 1, j);
      RunRank(Before(log, i + 1), log[i + 1..j], c);
    }
    forall j: nat | j < |log| ensures !Clears(log, j, c) {
      if j <= i && c in Before(log, j).callers {
        LaterState(log, j, i);
        RunRank(Before(log, j), log[j..i], c);
      }
    }
  }

  lemma UnreadIsLeftAlone(log: seq<Event>, i: nat, c: int)
    requires ReadsNothing(log, i, c)
    ensures Before(log, i + 1).tasks == Before(log, i).tasks
    ensures forall j :: i < j <= |log| ==> At(Before(log, j), c, Returned(Unreadable))
    ensures forall j: nat :: !Clears(log, j, c)
  {
    InspectionIs(Before(log, i), c, log[i].readable);
    NextState(log, i);
    forall j | i < j <= |log| ensures At(Before(log, j), c, Returned(Unreadable)) {
      LaterState(log, i + 1, j);
      RunRank(Before(log, i + 1), log[i + 1..j], c);
    }
    forall j: nat | j < |log| ensures !Clears(log, j, c) {
      if j <= i && c in Before(log, j).callers {
        LaterState(log, j, i);
        RunRank(Before(log, j), log[j..i], c);
      }
    }
  }

  predicate PastInspection(pc: Pc) {
    pc.AtDelete? || pc.AtReenqueue? || (pc.Returned? && (pc.reply.Reenqueued? || pc.reply.CoalescedAfterClearing?))
  }

  /** Call c has read a task that is over, at a step before j. */
  ghost predicate ReadFinished(log: seq<Event>, j: nat, c: int) {
    exists i: nat, state :: i < j && Reads(log, i, c, state) && (state == Archived || state == Completed)
  }

  lemma StillRead(log: seq<Event>, j: nat, c: int)
    requires ReadFinished(log, j, c)
    ensures ReadFinished(log, j + 1, c)
  {
    var i: nat, state :| i < j && Reads(log, i, c, state) && (state == Archived || state == Completed);
    assert i < j + 1 && Reads(log, i, c, state);
  }

  lemma JustRead(log: seq<Event>, i: nat, c: int)
    requires i < |log| && log[i] == Inspect(c, true) && At(Before(log, i), c, AtInspect)
    requires Before(log, i).callers[c].id in Before(log, i).tasks
    requires Before(log, i).tasks[Before(log, i).callers[c].id].state in {Archived, Completed}
    ensures ReadFinished(log, i + 1, c)
  {
    var state := Before(log, i).tasks[Before(log, i).callers[c].id].state;
    assert i < i + 1 && Reads(log, i, c, state);
  }

  /** The step that first takes a call past its inspection is an inspection that read a finished task. */
  lemma EntersClearing(s: State, e: Event, c: int)
    requires c in Apply(s, e).callers && PastInspection(Apply(s, e).callers[c].pc)
    requires c in s.callers ==> !PastInspection(s.callers[c].pc)
    ensures e == Inspect(c, true) && At(s, c, AtInspect) && s.callers[c].id in s.tasks
    ensures s.tasks[s.callers[c].id].state in {Archived, Completed}
  {
    if c in s.callers {
      StepRank(s, e, c);
    } else {
      StepCallers(s, e, c);
    }
  }

  /** Conversely a call is past its inspection, on its way to clear a task or back from it, only if it read an
      archived or completed one. */
  lemma {:induction false} OnlyFinishedIsCleared(log: seq<Event>, j: nat, c: int)
    requires j <= |log| && c in Before(log, j).callers && PastInspection(Before(log, j).callers[c].pc)
    ensures ReadFinished(log, j, c)
    decreases j
  {
    if j > 0 {
      var s := Before(log, j - 1);
      NextState(log, j - 1);
      if c in s.callers && PastInspection(s.callers[c].pc) {
        OnlyFinishedIsCleared(log, j - 1, c);
        StillRead(log, j - 1, c);
      } else {
        EntersClearing(s, log[j - 1], c);
        JustRead(log, j - 1, c);
      }
    }
  }

  lemma ClearsOnlyFinished(log: seq<Event>, j: nat, c: int)
    requires Clears(log, j, c)
    ensures ReadFinished(log, j, c)
  {
    OnlyFinishedIsCleared(log, j, c);
  }

  // ---------------------------------------------------------------- what a call does to the tasks

  predicate TouchesItsOwn(s: State, t: map<string, Task>, e: Event, c: int, id: string)
    requires c in s.callers
  {
    var own := s.callers[c].id;
    && (id in s.tasks && id in t ==> t[id] == s.tasks[id])
    && (id in s.tasks && id !in t ==> id == own && e.Delete? && s.callers[c].pc.AtDelete? && s.tasks[id].state != Active)
    && (id !in s.tasks && id in t ==>
          id == own && t[id] == Task(Scheduled, 0, s.now)
          && ((e.Enqueue? && s.callers[c].pc.AtEnqueue?) || (e.Reenqueue? && s.callers[c].pc.AtReenqueue?)))
  }

  lemma EnqueueTouches(s: State, c: int, o: Outcome, id: string)
    requires c in s.callers
    ensures TouchesItsOwn(s, Act(s, Enqueue(c, o)).tasks, Enqueue(c, o), c, id)
  {
  }

  lemma DeleteTouches(s: State, c: int, o: Outcome, id: string)
    requires c in s.callers
    ensures TouchesItsOwn(s, Act(s, Delete(c, o)).tasks, Delete(c, o), c, id)
  {
  }

  lemma ReenqueueTouches(s: State, c: int, o: Outcome, id: string)
    requires c in s.callers
    ensures TouchesItsOwn(s, Act(s, Reenqueue(c, o)).tasks, Reenqueue(c, o), c, id)
  {
  }

  /** A call's step leaves every task it finds as it is, except that from its delete it may remove its own, and
      only one that is not active; the one task it may add is its own, scheduled and unretried. */
  lemma CallTouchesItsOwn(s: State, e: Event, c: int, id: string)
    requires c in s.callers && StepOf(e, c)
    ensures TouchesItsOwn(s, Apply(s, e).tasks, e, c, id)
  {
    match e
    case Enqueue(d, o) => EnqueueTouches(s, c, o, id);
    case Inspect(d, readable) => assert Act(s, e).tasks == s.tasks;
    case Delete(d, o) => DeleteTouches(s, c, o, id);
    case Reenqueue(d, o) => ReenqueueTouches(s, c, o, id);
  }

  // ---------------------------------------------------------------- when a call fails

  /** A Redis error hits the step call c takes here, or its delete meets a task that has become active. That the
      task to delete is gone already is no error, nor is a second conflict. */
  predicate ErrsAt(s: State, e: Event, c: int) {
    && c in s.callers
    && ((e.Enqueue? && e.c == c && s.callers[c].pc.AtEnqueue? && e.outcome != Done)
        || (e.Delete? && e.c == c && s.callers[c].pc.AtDelete?
            && (e.outcome != Done || (s.callers[c].id in s.tasks && s.tasks[s.callers[c].id].state == Active)))
        || (e.Reenqueue? && e.c == c && s.callers[c].pc.AtReenqueue? && e.outcome != Done))
  }

  lemma FailsStep(s: State, e: Event, c: int)
    ensures At(Apply(s, e), c, Returned(Failed)) <==> At(s, c, Returned(Failed)) || ErrsAt(s, e, c)
  {
    if StepOf(e, c) && c in s.callers {
      OwnStepFails(s, e, c);
    } else if c in s.callers {
      StepRank(s, e, c);
    } else {
      StepCallers(s, e, c);
    }
  }

  predicate FailsRightly(s: State, t: State, e: Event, c: int) {
    At(t, c, Returned(Failed)) <==> At(s, c, Returned(Failed)) || ErrsAt(s, e, c)
  }

  lemma EnqueueFails(s: State, c: int, o: Outcome)
    requires c in s.callers
    ensures FailsRightly(s, Act(s, Enqueue(c, o)), Enqueue(c, o), c)
  {
  }

  lemma DeleteFails(s: State, c: int, o: Outcome)
    requires c in s.callers
    ensures FailsRightly(s, Act(s, Delete(c, o)), Delete(c, o), c)
  {
  }

  lemma ReenqueueFails(s: State, c: int, o: Outcome)
    requires c in s.callers
    ensures FailsRightly(s, Act(s, Reenqueue(c, o)), Reenqueue(c, o), c)
  {
  }

  lemma OwnStepFails(s: State, e: Event, c: int)
    requires c in s.callers && StepOf(e, c)
    ensures FailsRightly(s, Act(s, e), e, c)
  {
    match e
    case Enqueue(d, o) => EnqueueFails(s, c, o);
    case Inspect(d, readable) => InspectRank(s, c, readable, c);
    case Delete(d, o) => DeleteFails(s, c, o);
    case Reenqueue(d, o) => ReenqueueFails(s, c, o);
  }

  /** A call returns an error exactly when one of its steps met one; every other answer is nil. */
  lemma {:induction false} FailsIff(log: seq<Event>, n: nat, c: int)
    requires n <= |log|
    ensures At(Before(log, n), c, Returned(Failed)) <==> exists j: nat :: j < n && ErrsAt(Before(log, j), log[j], c)
    decreases n
  {
    if n == 0 {
      assert log[..0] == [];
    } else {
      FailsIff(log, n - 1, c);
      NextState(log, n - 1);
      FailsStep(Before(log, n - 1), log[n - 1], c);
    }
  }
}
