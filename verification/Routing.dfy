/** What each webhook event asks for, from the event and the rows alone. */
module Routing {
  import opened Text
  import opened Seqs
  import opened Config
  import opened Tables
  import opened QueueLaws
  import opened Push
  import opened Webhook

  // ---------------------------------------------------------------- full names

  /** The full name is a slash-free owner, a slash and a name, neither empty. */
  predicate Names(fullName: string, l: Label) {
    fullName == l.0 + "/" + l.1 && l.0 != "" && '/' !in l.0 && l.1 != ""
  }

  predicate Takeable(fullName: string) {
    exists i :: 0 < i < |fullName| - 1 && fullName[i] == '/' && '/' !in fullName[..i]
  }

  function TakeableNames(): string -> bool {
    (f: string) => Takeable(f)
  }

  lemma TakeableIs(fullName: string)
    ensures Takeable(fullName) <==> OwnerName(fullName).Some?
    ensures OwnerName(fullName).Some? ==> Names(fullName, OwnerName(fullName).value)
  {
    var i := FirstSlash(fullName);
    if OwnerName(fullName).Some? {
      OwnerNameIff(fullName, OwnerName(fullName).value);
      assert fullName[i] == '/' && '/' !in fullName[..i];
    }
    if j :| 0 < j < |fullName| - 1 && fullName[j] == '/' && '/' !in fullName[..j] {
      assert fullName == fullName[..j] + "/" + fullName[j + 1..];
      FirstSlashIs(fullName[..j], fullName[j + 1..]);
    }
  }

  /** One job each for the full names that can be taken apart, in their order. */
  predicate JobsAre(jobs: seq<Job>, installation: int, names: seq<string>, reason: string) {
    && |jobs| == |names|
    && forall k :: 0 <= k < |jobs| ==>
         jobs[k].installation == installation && jobs[k].reason == reason && Names(names[k], (jobs[k].owner, jobs[k].name))
  }

  lemma {:induction false} JobsForAre(installation: int, fullNames: seq<string>, reason: string)
    ensures JobsAre(JobsFor(installation, fullNames, reason), installation, Filter(TakeableNames(), fullNames), reason)
  {
    if fullNames != [] {
      JobsForAre(installation, fullNames[..|fullNames| - 1], reason);
      TakeableIs(fullNames[|fullNames| - 1]);
    }
  }

  // ---------------------------------------------------------------- one event

  /** Only this installation's row is written. */
  predicate OnlyWith(was: Db, db: Db, installation: int, account: Installation) {
    && db.repos == was.repos && db.rows == was.rows && db.deliveries == was.deliveries
    && installation in db.installations && db.installations[installation] == account
    && (forall i :: i in db.installations && i != installation ==> i in was.installations && db.installations[i] == was.installations[i])
    && forall i :: i in was.installations ==> i in db.installations
  }

  ghost predicate Listed(names: seq<string>, l: Label) {
    exists f :: f in names && Names(f, l)
  }

  /** db is `was` without the repos listed and the rows under their ids. */
  ghost predicate OnlyWithoutListed(was: Db, db: Db, names: seq<string>) {
    && db.installations == was.installations && db.deliveries == was.deliveries
    && (forall l :: l in db.repos <==> l in was.repos && !Listed(names, l))
    && (forall l :: l in db.repos ==> db.repos[l] == was.repos[l])
    && (forall id :: id in db.rows <==> id in was.rows && !exists l :: l in was.repos && Listed(names, l) && was.repos[l].id == id)
    && (forall id :: id in db.rows ==> db.rows[id] == was.rows[id])
  }

  ghost predicate PushTriggers(db: Db, push: PushEvent, key: Label) {
    && key in db.repos && push.ref == "refs/heads/" + push.defaultBranch
    && exists c, p :: c in push.commits && Triggers(c, p, db.repos[key].docsDir, WatchedFiles(db.repos[key]))
  }

  /** The rows after an event, and the jobs it enqueues. */
  ghost predicate Asks(was: Db, db: Db, jobs: seq<Job>, p: Payload) {
    match p
    case InstallationEvent(action, i, account, repositories) =>
      if action == "created" then OnlyWith(was, db, i, account) && JobsAre(jobs, i, Filter(TakeableNames(), repositories), "onboard")
      else if action == "deleted" then OnlyWithout(was, db, i) && jobs == []
      else db == was && jobs == []
    case InstallationReposEvent(action, i, account, added, removed) =>
      if action == "added" then OnlyWith(was, db, i, account) && JobsAre(jobs, i, Filter(TakeableNames(), added), "repo_added")
      else if action == "removed" then OnlyWithoutListed(was, db, removed) && jobs == []
      else db == was && jobs == []
    case PushPayload(push, i, owner, name) =>
      db == was && jobs == if PushTriggers(was, push, (owner, name)) then [Job(i, owner, name, "push")] else []
    case _ => db == was && jobs == []
  }

  lemma ListedIs(names: seq<string>, l: Label)
    ensures Listed(names, l) <==> l in LabelsIn(names)
  {
    if f :| f in names && Names(f, l) {
      OwnerNameIff(f, l);
    }
    if l in LabelsIn(names) {
      var f :| f in names && OwnerName(f).Some? && OwnerName(f).value == l;
      OwnerNameIff(f, l);
      assert Names(f, l);
    }
  }

  lemma DroppedListed(db: Db, names: seq<string>)
    ensures OnlyWithoutListed(db, DropRepos(db, LabelsIn(names)), names)
  {
    forall l ensures Listed(names, l) <==> l in LabelsIn(names) {
      ListedIs(names, l);
    }
  }

  /** Onboarding writes the installation and enqueues one job per repository; offboarding removes exactly the
      installation's, or exactly the listed, repositories; a push enqueues its repository exactly when it triggers;
      nothing else does anything. */
  lemma EventAsks(db: Db, p: Payload)
    ensures Asks(db, RoutedDb(db, p), JobsOf(db, p), p)
  {
    match p
    case InstallationEvent(action, i, account, repositories) =>
      UninstalledIs(db, i);
      JobsForAre(i, repositories, "onboard");
    case InstallationReposEvent(action, i, account, added, removed) =>
      DroppedListed(db, removed);
      JobsForAre(i, added, "repo_added");
    case PushPayload(push, i, owner, name) =>
      if (owner, name) in db.repos {
        TriggersIff(push, db.repos[(owner, name)].docsDir, WatchedFiles(db.repos[(owner, name)]));
      }
    case _ =>
  }
}
