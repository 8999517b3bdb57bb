/** webhook/events.go and ServeHTTP of webhook/webhook.go as code over the store, the queue and the index. */
module Webhook {
  import opened Text
  import opened Config
  import opened Tables
  import opened IndexKeys
  import opened Mirror
  import opened QueueLaws
  import opened Push
  import Deliveries
  import Store
  import Index

  datatype Job = Job(installation: int, owner: string, name: string, reason: string)

  /** The queue as the handler sees it: accepted jobs, and how many more calls succeed (negative: all). */
  class Enqueuer {
    var jobs: seq<Job>
    var faultIn: int

    constructor (faultIn: int)
      ensures jobs == [] && this.faultIn == faultIn
    {
      jobs := [];
      this.faultIn := faultIn;
    }

    method EnqueueIngest(job: Job) returns (ok: bool)
      modifies this
      ensures jobs == if ok then old(jobs) + [job] else old(jobs)
      ensures old(faultIn) < 0 ==> ok && faultIn < 0
    {
      ok := faultIn != 0;
      if ok {
        jobs := jobs + [job];
      }
      faultIn := faultIn - 1;
    }
  }

  /** A decoded event; repositories are given by full name. */
  datatype Payload =
    | InstallationEvent(action: string, installation: int, account: Installation, repositories: seq<string>)
    | InstallationReposEvent(action: string, installation: int, account: Installation, added: seq<string>, removed: seq<string>)
    | PushPayload(push: PushEvent, installation: int, owner: string, name: string)
    | ReleaseEvent
    | OtherEvent

  // ---------------------------------------------------------------- what an event asks for

  /** One job for each full name that can be taken apart, in order. */
  function JobsFor(installation: int, fullNames: seq<string>, reason: string): seq<Job> {
    if fullNames == [] then []
    else
      var l := OwnerName(fullNames[|fullNames| - 1]);
      JobsFor(installation, fullNames[..|fullNames| - 1], reason)
      + if l.Some? then [Job(installation, l.value.0, l.value.1, reason)] else []
  }

  function LabelsIn(fullNames: seq<string>): set<Label> {
    set f | f in fullNames && OwnerName(f).Some? :: OwnerName(f).value
  }

  lemma {:induction false} JobsForIff(installation: int, fullNames: seq<string>, reason: string)
    ensures forall j :: j in JobsFor(installation, fullNames, reason) <==>
              (j.owner, j.name) in LabelsIn(fullNames) && j.installation == installation && j.reason == reason
  {
    if fullNames != [] {
      var n := |fullNames| - 1;
      JobsForIff(installation, fullNames[..n], reason);
      assert fullNames == fullNames[..n] + [fullNames[n]];
      LabelsSnoc(fullNames[..n], fullNames[n]);
    }
  }

  lemma LabelsSnoc(fullNames: seq<string>, f: string)
    ensures LabelsIn(fullNames + [f]) == LabelsIn(fullNames) + (if OwnerName(f).Some? then {OwnerName(f).value} else {})
  {
    var all := fullNames + [f];
    assert forall x :: x in all <==> x in fullNames || x == f;
    if OwnerName(f).Some? {
      assert f in all;
    }
  }

  // ---------------------------------------------------------------- cascades and purges

  function IdsOf(db: Db, labels: set<Label>): set<int> {
    set l | l in labels && l in db.repos :: db.repos[l].id
  }

  /** The records left after purging these ids, where a lost purge leaves its repo's records. */
  function PurgedAll(index: SearchIndex, ids: set<int>, outcome: int -> Outcome): SearchIndex {
    map k | k in index && !(index[k].repoID in ids && outcome(index[k].repoID) != Lost) :: index[k]
  }

  lemma PurgedOne(index: SearchIndex, ids: set<int>, id: int, outcome: int -> Outcome)
    ensures var before := PurgedAll(index, ids, outcome);
            PurgedAll(index, ids + {id}, outcome) == if outcome(id).Lost? then before else before - KeysOf(before, id)
  {
  }

  lemma PurgedMore(index: SearchIndex, a: set<int>, b: set<int>, outcome: int -> Outcome)
    ensures PurgedAll(PurgedAll(index, a, outcome), b, outcome) == PurgedAll(index, a + b, outcome)
  {
  }

  lemma DropMore(db: Db, a: set<Label>, l: Label)
    ensures DropRepos(DropRepos(db, a), {l}) == DropRepos(db, a + {l})
    ensures IdsOf(db, a + {l}) == IdsOf(db, a) + IdsOf(DropRepos(db, a), {l})
  {
    var one := DropRepos(db, a);
    assert IdsOf(db, a + {l}) == IdsOf(db, a) + IdsOf(one, {l});
    assert db.repos - a - {l} == db.repos - (a + {l});
    assert db.rows - IdsOf(db, a) - IdsOf(one, {l}) == db.rows - IdsOf(db, a + {l});
  }

  function First(names: seq<string>, n: nat): seq<string> {
    if n < |names| then names[..n] else names
  }

  /** The event with only the first n repositories of each of its lists. */
  function Cut(p: Payload, n: nat): Payload {
    match p
    case InstallationEvent(action, i, account, repos) => InstallationEvent(action, i, account, First(repos, n))
    case InstallationReposEvent(action, i, account, added, removed) =>
      InstallationReposEvent(action, i, account, First(added, n), First(removed, n))
    case _ => p
  }

  /** The jobs one event asks for. */
  ghost function JobsOf(db: Db, p: Payload): seq<Job> {
    match p
    case InstallationEvent(action, i, _, repos) => if action == "created" then JobsFor(i, repos, "onboard") else []
    case InstallationReposEvent(action, i, _, added, _) => if action == "added" then JobsFor(i, added, "repo_added") else []
    case PushPayload(push, i, owner, name) =>
      if (owner, name) in db.repos
         && ShouldIngest(push, db.repos[(owner, name)].docsDir, WatchedFiles(db.repos[(owner, name)]))
      then [Job(i, owner, name, "push")] else []
    case _ => []
  }

  /** The rows after one event. */
  function RoutedDb(db: Db, p: Payload): Db {
    match p
    case InstallationEvent(action, i, account, _) =>
      if action == "created" then db.(installations := db.installations[i := account])
      else if action == "deleted" then Uninstalled(db, i) else db
    case InstallationReposEvent(action, i, account, _, removed) =>
      if action == "added" then db.(installations := db.installations[i := account])
      else if action == "removed" then DropRepos(db, LabelsIn(removed)) else db
    case _ => db
  }

  /** The repos whose search records one event purges. */
  function PurgedIds(db: Db, p: Payload): set<int> {
    match p
    case InstallationEvent(action, i, _, _) => if action == "deleted" then IdsOf(db, LabelsOf(db, i)) else {}
    case InstallationReposEvent(action, _, _, _, removed) => if action == "removed" then IdsOf(db, LabelsIn(removed)) else {}
    case _ => {}
  }

  /** Dropping some repos drops their rows and touches no other repo. */
  lemma DropExactly(db: Db, next: int, labels: set<Label>)
    requires Integrity(db, next)
    ensures IdsOf(db, labels) == db.rows.Keys - DropRepos(db, labels).rows.Keys
    ensures forall l :: l in db.repos && db.repos[l].id !in IdsOf(db, labels) ==>
              l in DropRepos(db, labels).repos && DropRepos(db, labels).repos[l] == db.repos[l]
              && RowsAt(DropRepos(db, labels), db.repos[l].id) == RowsAt(db, db.repos[l].id)
  {
  }

  /** An event purges exactly the repos whose rows it drops, keeps every foreign key, and leaves the rows of every
      other repo alone. */
  lemma PurgesWhatItDrops(db: Db, next: int, p: Payload)
    requires Integrity(db, next)
    ensures PurgedIds(db, p) == db.rows.Keys - RoutedDb(db, p).rows.Keys
    ensures forall l :: l in db.repos && db.repos[l].id !in PurgedIds(db, p) ==>
              l in RoutedDb(db, p).repos && RoutedDb(db, p).repos[l] == db.repos[l]
              && RowsAt(RoutedDb(db, p), db.repos[l].id) == RowsAt(db, db.repos[l].id)
  {
    if p.InstallationEvent? && p.action == "deleted" {
      DropExactly(db, next, LabelsOf(db, p.installation));
    } else if p.InstallationReposEvent? && p.action == "removed" {
      DropExactly(db, next, LabelsIn(p.removed));
    }
  }

  lemma RoutingKeepsIntegrity(db: Db, next: int, p: Payload)
    requires Integrity(db, next)
    ensures Integrity(RoutedDb(db, p), next)
  {
    if p.InstallationEvent? && p.action == "deleted" {
      UninstallKeepsIntegrity(db, next, p.installation);
    } else if p.InstallationReposEvent? && p.action == "removed" {
      DropKeepsIntegrity(db, next, LabelsIn(p.removed));
    } else {
      SameReposIntegrity(db, RoutedDb(db, p), next, next);
    }
  }

  // ---------------------------------------------------------------- offboarding in the mirror's machine

  function Purges(ids: seq<int>, outcome: int -> Outcome): seq<Event> {
    if ids == [] then [] else Purges(ids[..|ids| - 1], outcome) + [Purge(ids[|ids| - 1], outcome(ids[|ids| - 1]))]
  }

  lemma RunLast(w: World, s: State, events: seq<Event>, e: Event)
    ensures Run(w, s, events + [e]) == Apply(w, Run(w, s, events), e)
  {
    Mirror.RunConcat(w, s, events, [e]);
    assert [e][1..] == [];
    assert Run(w, Run(w, s, events), [e]) == Run(w, Apply(w, Run(w, s, events), e), []);
  }

  function Ints(list: seq<int>): set<int> {
    set x | x in list
  }

  predicate Distinct(ids: seq<int>) {
    forall i, j :: 0 <= i < j < |ids| ==> ids[i] != ids[j]
  }

  lemma DistinctLast(ids: seq<int>)
    requires Distinct(ids) && ids != []
    ensures var init, id := ids[..|ids| - 1], ids[|ids| - 1];
            && Distinct(init) && id !in init && Ints(ids) == Ints(init) + {id}
            && forall i :: 0 <= i < |init| ==> init[i] == ids[i]
  {
    var init, id := ids[..|ids| - 1], ids[|ids| - 1];
    assert ids == init + [id];
  }

  /** Purging listed ids one after the other, each with its own outcome. */
  lemma {:induction false} PurgesRun(w: World, s: State, ids: seq<int>, outcome: int -> Outcome)
    requires Distinct(ids) && forall i :: 0 <= i < |ids| ==> ids[i] in s.purges
    ensures var t := Run(w, s, Purges(ids, outcome));
            && t.db == s.db && t.index == PurgedAll(s.index, Ints(ids), outcome)
            && forall id :: id in s.purges && id !in ids ==> id in t.purges
  {
    if ids == [] {
      assert PurgedAll(s.index, {}, outcome) == s.index;
    } else {
      var init, id := ids[..|ids| - 1], ids[|ids| - 1];
      DistinctLast(ids);
      PurgesRun(w, s, init, outcome);
      RunLast(w, s, Purges(init, outcome), Purge(id, outcome(id)));
      PurgesOneMore(w, s, Run(w, s, Purges(init, outcome)), Ints(init), id, outcome);
    }
  }

  lemma PurgesOneMore(w: World, s: State, t: State, done: set<int>, id: int, outcome: int -> Outcome)
    requires t.db == s.db && t.index == PurgedAll(s.index, done, outcome) && id in t.purges && id !in done
    ensures var u := Apply(w, t, Purge(id, outcome(id)));
            u.db == s.db && u.index == PurgedAll(s.index, done + {id}, outcome) && u.purges == t.purges - multiset{id}
  {
    PurgedOne(s.index, done, id, outcome);
    NothingHit(t.index);
  }

  lemma NothingHit(index: SearchIndex)
    ensures index - {} == index
  {
  }

  /** What the uninstall handler does to rows and index is what the machine's list, delete and purge steps do
      when nothing comes between them. */
  lemma OffboardIsMachine(w: World, s: State, handle: int, installation: int, ids: seq<int>, outcome: int -> Outcome)
    requires handle !in s.offboards && ListsSet(ids, IdsOf(s.db, LabelsOf(s.db, installation)))
    ensures var t := Run(w, s, [OffboardList(handle, installation), OffboardDelete(handle)] + Purges(ids, outcome));
            && t.db == Uninstalled(s.db, installation)
            && t.index == PurgedAll(s.index, IdsOf(s.db, LabelsOf(s.db, installation)), outcome)
  {
    var all := IdsOf(s.db, LabelsOf(s.db, installation));
    var s1 := Apply(w, s, OffboardList(handle, installation));
    assert forall id :: id in s1.offboards[handle].1 <==> id in all;
    assert s1.offboards[handle].1 == all && s1.offboards[handle].0 == installation;
    var s2 := Apply(w, s1, OffboardDelete(handle));
    RunLast(w, s, [OffboardList(handle, installation)], OffboardDelete(handle));
    RunLast(w, s, [], OffboardList(handle, installation));
    assert [] + [OffboardList(handle, installation)] == [OffboardList(handle, installation)];
    assert [OffboardList(handle, installation)] + [OffboardDelete(handle)] == [OffboardList(handle, installation), OffboardDelete(handle)];
    Mirror.RunConcat(w, s, [OffboardList(handle, installation), OffboardDelete(handle)], Purges(ids, outcome));
    Store.ListsIff(ids, all);
    assert Ints(ids) == all;
    PurgesRun(w, s2, ids, outcome);
  }

  /** And so for one removed repo. */
  lemma RemoveIsMachine(w: World, s: State, l: Label, outcome: int -> Outcome)
    ensures var purge := if l in s.db.repos then [Purge(s.db.repos[l].id, outcome(s.db.repos[l].id))] else [];
            var t := Run(w, s, [RemoveRepo(l)] + purge);
            && t.db == DropRepos(s.db, {l}) && t.index == PurgedAll(s.index, IdsOf(s.db, {l}), outcome)
  {
    var s1 := Apply(w, s, RemoveRepo(l));
    RunLast(w, s, [], RemoveRepo(l));
    assert [] + [RemoveRepo(l)] == [RemoveRepo(l)];
    PurgedNone(s.index, outcome);
    if l in s.db.repos {
      var id := s.db.repos[l].id;
      assert IdsOf(s.db, {l}) == {} + {id};
      RunLast(w, s, [RemoveRepo(l)], Purge(id, outcome(id)));
      PurgesOneMore(w, s1, s1, {}, id, outcome);
    } else {
      assert [RemoveRepo(l)] + [] == [RemoveRepo(l)];
      assert IdsOf(s.db, {l}) == {} && DropRepos(s.db, {l}) == s.db;
    }
  }

  lemma PurgedNone(index: SearchIndex, outcome: int -> Outcome)
    ensures PurgedAll(index, {}, outcome) == index
  {
  }

  // ---------------------------------------------------------------- the handlers

  /** How the environment answers one delivery: the record insert, the other store calls, the index of the repo
      delete that fails (none when out of range), and each purge. */
  datatype Env = Env(record: Outcome, storeOk: bool, deleteFaultAt: int, purge: int -> Outcome)

  /** The rows, jobs and records after an event, from those before. */
  ghost predicate Effect(was: Db, db: Db, jobs: seq<Job>, allJobs: seq<Job>, had: SearchIndex, has: SearchIndex, p: Payload, env: Env) {
    db == RoutedDb(was, p) && allJobs == jobs + JobsOf(was, p) && has == PurgedAll(had, PurgedIds(was, p), env.purge)
  }

  /** All of it, or on failure nothing or the part for the first n repositories. */
  ghost predicate Handled(ok: bool, was: Db, db: Db, jobs: seq<Job>, allJobs: seq<Job>, had: SearchIndex, has: SearchIndex, p: Payload, env: Env) {
    if ok then Effect(was, db, jobs, allJobs, had, has, p, env)
    else (db == was && allJobs == jobs && has == had)
         || exists n: nat :: Effect(was, db, jobs, allJobs, had, has, Cut(p, n), env)
  }

  lemma NothingPurged(index: SearchIndex, env: Env)
    ensures PurgedAll(index, {}, env.purge) == index
  {
  }

  lemma CutFirst(names: seq<string>, n: nat)
    requires n <= |names|
    ensures First(names, n) == names[..n]
  {
    assert names[..|names|] == names;
  }

  class Handler {
    const store: Store.Store
    const enq: Enqueuer
    const purger: Index.Client

    constructor (store: Store.Store, enq: Enqueuer, purger: Index.Client)
      ensures this.store == store && this.enq == enq && this.purger == purger
    {
      this.store := store;
      this.enq := enq;
      this.purger := purger;
    }

    /** A failed purge is logged and changes nothing else. */
    method PurgeIndex(repoID: int, o: Outcome)
      modifies purger
      ensures purger.records == if o.Lost? then old(purger.records) else old(purger.records) - KeysOf(old(purger.records), repoID)
    {
      var ok := purger.DeleteRepoDocuments(repoID, o);
    }

    /** Unparseable names are skipped; the first rejected job ends the batch. */
    method EnqueueRepos(installation: int, fullNames: seq<string>, reason: string) returns (ok: bool)
      modifies enq
      ensures ok ==> enq.jobs == old(enq.jobs) + JobsFor(installation, fullNames, reason)
      ensures exists n :: 0 <= n <= |fullNames| && enq.jobs == old(enq.jobs) + JobsFor(installation, fullNames[..n], reason)
      ensures old(enq.faultIn) < 0 ==> ok && enq.faultIn < 0
    {
      for i := 0 to |fullNames|
        invariant enq.jobs == old(enq.jobs) + JobsFor(installation, fullNames[..i], reason)
        invariant old(enq.faultIn) < 0 ==> enq.faultIn < 0
      {
        assert fullNames[..i + 1][..i] == fullNames[..i];
        var l := OwnerName(fullNames[i]);
        if l.None? {
          continue;
        }
        var accepted := enq.EnqueueIngest(Job(installation, l.value.0, l.value.1, reason));
        if !accepted {
          assert enq.jobs == old(enq.jobs) + JobsFor(installation, fullNames[..i], reason);
          return false;
        }
      }
      assert fullNames[..|fullNames|] == fullNames;
      return true;
    }

    /** One removed repo: a row that is already absent is no error and nothing is purged for it. */
    method OffboardRepo(l: Label, env: Env)
      modifies store`db, purger
      ensures store.db == DropRepos(old(store.db), {l})
      ensures purger.records == PurgedAll(old(purger.records), IdsOf(old(store.db), {l}), env.purge)
    {
      ghost var had := purger.records;
      var id := store.DeleteRepo(l.0, l.1);
      assert PurgedAll(had, {}, env.purge) == had;
      if id.Some? {
        PurgedOne(had, {}, id.value, env.purge);
        assert IdsOf(old(store.db), {l}) == {} + {id.value};
        PurgeIndex(id.value, env.purge(id.value));
      } else {
        assert IdsOf(old(store.db), {l}) == {};
      }
    }

    /** Every removed repo's rows are gone, and its records with them unless the purge was lost. */
    method OffboardRepos(fullNames: seq<string>, env: Env) returns (ok: bool)
      modifies store`db, purger
      ensures exists n :: 0 <= n <= |fullNames| && (ok ==> n == |fullNames|)
                && store.db == DropRepos(old(store.db), LabelsIn(fullNames[..n]))
                && purger.records == PurgedAll(old(purger.records), IdsOf(old(store.db), LabelsIn(fullNames[..n])), env.purge)
      ensures env.deleteFaultAt < 0 ==> ok
    {
      ghost var was, had := store.db, purger.records;
      assert DropRepos(was, {}) == was && PurgedAll(had, {}, env.purge) == had;
      for i := 0 to |fullNames|
        invariant store.db == DropRepos(was, LabelsIn(fullNames[..i]))
        invariant purger.records == PurgedAll(had, IdsOf(was, LabelsIn(fullNames[..i])), env.purge)
      {
        assert fullNames[..i + 1] == fullNames[..i] + [fullNames[i]];
        LabelsSnoc(fullNames[..i], fullNames[i]);
        var l := OwnerName(fullNames[i]);
        if l.None? {
          continue;
        }
        if env.deleteFaultAt == i {
          return false;
        }
        DropMore(was, LabelsIn(fullNames[..i]), l.value);
        PurgedMore(had, IdsOf(was, LabelsIn(fullNames[..i])), IdsOf(store.db, {l.value}), env.purge);
        OffboardRepo(l.value, env);
      }
      assert fullNames[..|fullNames|] == fullNames;
      return true;
    }

    /** The ids are listed before the cascade removes the rows that name them. */
    method OffboardInstallation(installation: int, env: Env) returns (ok: bool)
      modifies store`db, purger
      ensures ok == env.storeOk
      ensures !ok ==> store.db == old(store.db) && purger.records == old(purger.records)
      ensures ok ==> store.db == Uninstalled(old(store.db), installation)
                     && purger.records == PurgedAll(old(purger.records), IdsOf(old(store.db), LabelsOf(old(store.db), installation)), env.purge)
    {
      if !env.storeOk {
        return false;
      }
      ghost var was, had := store.db, purger.records;
      var ids := Store.Listed(IdsOf(store.db, LabelsOf(store.db, installation)));
      Store.ListsIff(ids, IdsOf(store.db, LabelsOf(store.db, installation)));
      store.DeleteInstallation(installation);
      assert PurgedAll(had, {}, env.purge) == had;
      for i := 0 to |ids|
        invariant store.db == Uninstalled(old(store.db), installation)
        invariant purger.records == PurgedAll(had, Ints(ids[..i]), env.purge)
      {
        assert ids[..i + 1] == ids[..i] + [ids[i]];
        assert Ints(ids[..i + 1]) == Ints(ids[..i]) + {ids[i]};
        PurgedOne(had, Ints(ids[..i]), ids[i], env.purge);
        PurgeIndex(ids[i], env.purge(ids[i]));
      }
      assert ids[..|ids|] == ids;
      assert Ints(ids) == IdsOf(was, LabelsOf(was, installation));
      return true;
    }

    method HandlePush(push: PushEvent, installation: int, owner: string, name: string, env: Env) returns (ok: bool)
      modifies enq
      ensures ok ==> env.storeOk && enq.jobs == old(enq.jobs) + JobsOf(store.db, PushPayload(push, installation, owner, name))
      ensures !ok ==> enq.jobs == old(enq.jobs)
      ensures env.storeOk && old(enq.faultIn) < 0 ==> ok
    {
      if !env.storeOk {
        return false;
      }
      if (owner, name) !in store.db.repos {
        return true;
      }
      var repo := store.db.repos[(owner, name)];
      var watched := CollectWatchedFiles(repo);
      var relevant := CheckShouldIngest(push, repo.docsDir, watched);
      if !relevant {
        return true;
      }
      ok := enq.EnqueueIngest(Job(installation, owner, name, "push"));
    }

    /** "created" onboards, "deleted" offboards, every other action is ignored. */
    method HandleInstallation(action: string, installation: int, account: Installation, repositories: seq<string>, env: Env) returns (ok: bool)
      modifies store`db, enq, purger
      ensures Handled(ok, old(store.db), store.db, old(enq.jobs), enq.jobs, old(purger.records), purger.records,
                      InstallationEvent(action, installation, account, repositories), env)
      ensures env.storeOk && old(enq.faultIn) < 0 ==> ok
    {
      ghost var p := InstallationEvent(action, installation, account, repositories);
      NothingPurged(purger.records, env);
      if action == "created" {
        if !env.storeOk {
          return false;
        }
        store.UpsertInstallation(installation, account);
        ok := EnqueueRepos(installation, repositories, "onboard");
        if !ok {
          ghost var n :| 0 <= n <= |repositories| && enq.jobs == old(enq.jobs) + JobsFor(installation, repositories[..n], "onboard");
          CutFirst(repositories, n);
          assert Effect(old(store.db), store.db, old(enq.jobs), enq.jobs, old(purger.records), purger.records, Cut(p, n), env);
        }
      } else if action == "deleted" {
        ok := OffboardInstallation(installation, env);
      } else {
        ok := true;
      }
    }

    method HandleInstallationRepos(action: string, installation: int, account: Installation, added: seq<string>, removed: seq<string>, env: Env)
      returns (ok: bool)
      modifies store`db, enq, purger
      ensures Handled(ok, old(store.db), store.db, old(enq.jobs), enq.jobs, old(purger.records), purger.records,
                      InstallationReposEvent(action, installation, account, added, removed), env)
      ensures env.storeOk && env.deleteFaultAt < 0 && old(enq.faultIn) < 0 ==> ok
    {
      ghost var p := InstallationReposEvent(action, installation, account, added, removed);
      NothingPurged(purger.records, env);
      if action == "added" {
        if !env.storeOk {
          return false;
        }
        store.UpsertInstallation(installation, account);
        ok := EnqueueRepos(installation, added, "repo_added");
        if !ok {
          ghost var n :| 0 <= n <= |added| && enq.jobs == old(enq.jobs) + JobsFor(installation, added[..n], "repo_added");
          CutFirst(added, n);
          assert Effect(old(store.db), store.db, old(enq.jobs), enq.jobs, old(purger.records), purger.records, Cut(p, n), env);
        }
      } else if action == "removed" {
        ok := OffboardRepos(removed, env);
        ghost var n :| 0 <= n <= |removed| && (ok ==> n == |removed|)
          && store.db == DropRepos(old(store.db), LabelsIn(removed[..n]))
          && purger.records == PurgedAll(old(purger.records), IdsOf(old(store.db), LabelsIn(removed[..n])), env.purge);
        CutFirst(removed, n);
        assert removed[..|removed|] == removed;
        assert Effect(old(store.db), store.db, old(enq.jobs), enq.jobs, old(purger.records), purger.records, Cut(p, n), env);
      } else {
        ok := true;
      }
    }

    /** The whole effect of one event: its rows, its jobs and its purges. When something fails, either nothing at
        all has happened or the effect of the same event cut to the first n of its repositories. No handler
        touches the delivery table. */
    method Route(p: Payload, env: Env) returns (ok: bool)
      modifies store`db, enq, purger
      ensures Handled(ok, old(store.db), store.db, old(enq.jobs), enq.jobs, old(purger.records), purger.records, p, env)
      ensures store.db.deliveries == old(store.db).deliveries
      ensures env.storeOk && env.deleteFaultAt < 0 && old(enq.faultIn) < 0 ==> ok
    {
      NothingPurged(purger.records, env);
      match p
      case InstallationEvent(action, installation, account, repositories) =>
        ok := HandleInstallation(action, installation, account, repositories, env);
      case InstallationReposEvent(action, installation, account, added, removed) =>
        ok := HandleInstallationRepos(action, installation, account, added, removed, env);
      case PushPayload(push, installation, owner, name) =>
        ok := HandlePush(push, installation, owner, name, env);
      case ReleaseEvent =>
        ok := true;
      case OtherEvent =>
        ok := true;
    }

    /** Verify, record, parse, route. Nothing is touched for a bad signature or a delivery already recorded; a
        new delivery is recorded before it is parsed, so it stays recorded when parsing or routing fails. The call is
        the delivery machine's steps for one request `r` in any state `m` with this table. */
    method ServeHTTP(deliveryID: string, signed: bool, payload: Option<Payload>, env: Env, ghost m: Deliveries.State, ghost r: int)
      returns (status: Deliveries.Status)
      requires m.deliveries == store.db.deliveries && r !in m.requests && r !in m.routed
      modifies store`db, enq, purger
      ensures var t := Deliveries.OneCall(m, r, deliveryID, signed, payload.Some?, env.record, status == Deliveries.Accepted);
              && t.deliveries == store.db.deliveries && Deliveries.At(t, r, Deliveries.Responded(status))
              && (r in t.routed <==> status == Deliveries.Accepted || status == Deliveries.HandlingFailed)
      ensures !signed || (deliveryID != "" && (env.record != Done || deliveryID in old(store.db).deliveries)) || payload.None? ==>
                enq.jobs == old(enq.jobs) && purger.records == old(purger.records)
                && store.db == old(store.db).(deliveries := store.db.deliveries)
      ensures store.db.deliveries == old(store.db).deliveries + if signed && deliveryID != "" && env.record != Lost then {deliveryID} else {}
      ensures status == Deliveries.InvalidSignature <==> !signed
      ensures status == Deliveries.RecordFailed <==> signed && deliveryID != "" && env.record != Done
      ensures status == Deliveries.AlreadyProcessed <==> signed && deliveryID != "" && env.record == Done && deliveryID in old(store.db).deliveries
      ensures status == Deliveries.BadPayload <==>
                signed && (deliveryID == "" || (env.record == Done && deliveryID !in old(store.db).deliveries)) && payload.None?
      ensures status == Deliveries.Accepted ==>
                && payload.Some? && (deliveryID == "" || deliveryID !in old(store.db).deliveries)
                && var recorded := old(store.db).(deliveries := store.db.deliveries);
                && store.db == RoutedDb(recorded, payload.value)
                && enq.jobs == old(enq.jobs) + JobsOf(recorded, payload.value)
                && purger.records == PurgedAll(old(purger.records), PurgedIds(recorded, payload.value), env.purge)
      ensures status == Deliveries.HandlingFailed ==>
                && payload.Some? && (deliveryID == "" || deliveryID !in old(store.db).deliveries)
                && Handled(false, old(store.db).(deliveries := store.db.deliveries), store.db, old(enq.jobs), enq.jobs,
                           old(purger.records), purger.records, payload.value, env)
    {
      Deliveries.OneCallIs(m, r, deliveryID, signed, payload.Some?, env.record, true);
      Deliveries.OneCallIs(m, r, deliveryID, signed, payload.Some?, env.record, false);
      if !signed {
        return Deliveries.InvalidSignature;
      }
      if deliveryID != "" {
        if env.record.Lost? {
          return Deliveries.RecordFailed;
        }
        var isNew := store.RecordDelivery(deliveryID);
        if env.record.Applied? {
          return Deliveries.RecordFailed;
        }
        if !isNew {
          return Deliveries.AlreadyProcessed;
        }
      }
      if payload.None? {
        return Deliveries.BadPayload;
      }
      var ok := Route(payload.value, env);
      return if ok then Deliveries.Accepted else Deliveries.HandlingFailed;
    }
  }
}
