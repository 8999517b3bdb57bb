/** What the state machine of module Mirror guarantees over whole runs. */
module MirrorLaws {
  import opened Text
  import opened Config
  import opened Pages
  import opened Documents
  import opened Gate
  import opened Tables
  import opened IndexKeys
  import opened Mirror
  import opened SyncSteps
  import opened Scope

  lemma InitialInv(w: World)
    requires Sound(w)
    ensures Inv(w, INITIAL)
  {
  }

  /** After any sequence of ingests of any repos, index syncs with any outcome, crashes, uninstalls, removals
      and purges: for every repo that exists, the index holds under each of the repo's keys exactly the record of
      the stored row, or nothing where there is no row, except under keys whose last sync failed and keys of the
      sync still under way. Foreign keys and unique ids hold throughout. */
  lemma TableIndexAgreement(w: World, events: seq<Event>)
    requires Sound(w) && AllKnown(w, events)
    ensures var s := Run(w, INITIAL, events);
            && Integrity(s.db, s.next)
            && forall l, k :: l in s.db.repos && Owns(s.db.repos[l].id, k) && k !in s.dirty && k !in Pending(w, s, l)
                 ==> AgreeAt(s.index, ImageOf(w, s, l), k)
  {
    InitialInv(w);
    RunKeeps(w, INITIAL, events);
    var s := Run(w, INITIAL, events);
    forall l, k | l in s.db.repos && Owns(s.db.repos[l].id, k) && k !in s.dirty && k !in Pending(w, s, l)
      ensures AgreeAt(s.index, ImageOf(w, s, l), k)
    {
      assert Mirrors(w, s, l);
    }
  }

  // ---------------------------------------------------------------- uninstalls

  predicate NoReinstall(installation: int, events: seq<Event>) {
    forall i :: 0 <= i < |events| && events[i].AddInstallation? ==> events[i].installation != installation
  }

  lemma UninstalledStep(w: World, s: State, installation: int, e: Event)
    requires installation !in s.db.installations && !(e.AddInstallation? && e.installation == installation)
    ensures installation !in Apply(w, s, e).db.installations
  {
    if Quiet(e) {
      QuietStep(w, s, e);
    }
  }

  predicate Uninhabited(s: State, installation: int) {
    installation !in s.db.installations && forall l :: l in s.db.repos ==> s.db.repos[l].installation != installation
  }

  lemma {:induction false} StaysUninstalled(w: World, s: State, installation: int, events: seq<Event>)
    requires Inv(w, s) && AllKnown(w, events)
    requires installation !in s.db.installations && NoReinstall(installation, events)
    ensures Uninhabited(Run(w, s, events), installation)
    decreases |events|
  {
    if events != [] {
      StepKeeps(w, s, events[0]);
      UninstalledStep(w, s, installation, events[0]);
      assert forall i :: 0 <= i < |events[1..]| ==> events[1..][i] == events[i + 1];
      StaysUninstalled(w, Apply(w, s, events[0]), installation, events[1..]);
    }
  }

  lemma LateIngestRollsBack(w: World, s: State, input: ReconcileInput, now: int, fault: bool)
    requires input.repo.installation !in s.db.installations
    ensures Apply(w, s, Ingest(input, now, fault)).db == s.db && Apply(w, s, Ingest(input, now, fault)).syncs == s.syncs
  {
  }

  lemma HandleStep(w: World, s: State, h: int, e: Event)
    requires h in s.offboards && e != OffboardDelete(h)
    ensures h in Apply(w, s, e).offboards && Apply(w, s, e).offboards[h] == s.offboards[h]
  {
    match e
    case SyncDelete(l, o) =>
    case SyncReadDocs(l, ok) =>
    case SyncReadPages(l, ok) =>
    case SyncIndex(l, o) =>
    case _ =>
  }

  /** Until its delete runs, an offboard keeps what it listed. */
  lemma {:induction false} HandleKept(w: World, s: State, h: int, events: seq<Event>)
    requires h in s.offboards && forall e :: e in events ==> e != OffboardDelete(h)
    ensures h in Run(w, s, events).offboards && Run(w, s, events).offboards[h] == s.offboards[h]
    decreases |events|
  {
    if events != [] {
      assert events[0] in events && forall e :: e in events[1..] ==> e in events;
      HandleStep(w, s, h, events[0]);
      HandleKept(w, Apply(w, s, events[0]), h, events[1..]);
    }
  }

  lemma RunSnoc(w: World, s: State, events: seq<Event>, e: Event)
    ensures Run(w, s, events + [e]) == Apply(w, Run(w, s, events), e)
  {
    RunConcat(w, s, events, [e]);
    assert [e][1..] == [];
    assert Run(w, Run(w, s, events), [e]) == Run(w, Apply(w, Run(w, s, events), e), []);
  }

  /** An uninstall: its ids are listed, anything happens, its delete runs. */
  function Uninstall(h: int, installation: int, between: seq<Event>): seq<Event> {
    [OffboardList(h, installation)] + between + [OffboardDelete(h)]
  }

  /** Right after it neither the installation nor a repo of it is left. */
  lemma UninstallEmpties(w: World, s: State, h: int, installation: int, between: seq<Event>)
    requires h !in s.offboards && forall e :: e in between ==> e != OffboardDelete(h)
    ensures Uninhabited(Run(w, s, Uninstall(h, installation, between)), installation)
  {
    var first := [OffboardList(h, installation)];
    RunSnoc(w, s, [], OffboardList(h, installation));
    assert [] + first == first;
    RunConcat(w, s, first, between);
    var s1 := Run(w, s, first);
    HandleKept(w, s1, h, between);
    RunSnoc(w, s, first + between, OffboardDelete(h));
    UninstalledIs(Run(w, s1, between).db, installation);
  }

  /** From the uninstall on, whatever late ingests, syncs and purges follow, no row of the installation comes
      back until the installation itself is added again; each late ingest for it changes no row at all. */
  lemma UninstallStays(w: World, before: seq<Event>, h: int, installation: int, between: seq<Event>, later: seq<Event>)
    requires Sound(w) && AllKnown(w, before + Uninstall(h, installation, between) + later)
    requires h !in Run(w, INITIAL, before).offboards && forall e :: e in between ==> e != OffboardDelete(h)
    requires NoReinstall(installation, later)
    ensures var t := Run(w, INITIAL, before + Uninstall(h, installation, between) + later);
            && Uninhabited(t, installation)
            && forall input: ReconcileInput, now, fault :: input.repo.installation == installation ==>
                 Apply(w, t, Ingest(input, now, fault)).db == t.db && Apply(w, t, Ingest(input, now, fault)).syncs == t.syncs
  {
    var upTo := before + Uninstall(h, installation, between);
    var all := upTo + later;
    assert (forall i :: 0 <= i < |upTo| ==> all[i] == upTo[i]) && forall i :: 0 <= i < |later| ==> all[|upTo| + i] == later[i];
    InitialInv(w);
    RunKeeps(w, INITIAL, upTo);
    RunConcat(w, INITIAL, before, Uninstall(h, installation, between));
    UninstallEmpties(w, Run(w, INITIAL, before), h, installation, between);
    RunConcat(w, INITIAL, upTo, later);
    StaysUninstalled(w, Run(w, INITIAL, upTo), installation, later);
    var t := Run(w, INITIAL, all);
    forall input: ReconcileInput, now, fault | input.repo.installation == installation
      ensures Apply(w, t, Ingest(input, now, fault)).db == t.db && Apply(w, t, Ingest(input, now, fault)).syncs == t.syncs
    {
      LateIngestRollsBack(w, t, input, now, fault);
    }
  }

  // ---------------------------------------------------------------- a failed sync and later runs

  /** One run in which nothing goes wrong. */
  function Full(input: ReconcileInput, now: int): seq<Event> {
    var l := LabelOf(input.repo);
    [Ingest(input, now, false), SyncDelete(l, Done), SyncReadDocs(l, true), SyncReadPages(l, true), SyncIndex(l, Done)]
  }

  function Again(input: ReconcileInput, stamps: seq<int>): seq<Event> {
    if stamps == [] then [] else Again(input, stamps[..|stamps| - 1]) + Full(input, stamps[|stamps| - 1])
  }

  lemma FullIs(w: World, s: State, input: ReconcileInput, now: int)
    ensures Run(w, s, Full(input, now)) == Synced(w, Apply(w, s, Ingest(input, now, false)), LabelOf(input.repo), FAULTLESS)
  {
    var e := Full(input, now);
    var s1 := Apply(w, s, e[0]);
    var s2 := Apply(w, s1, e[1]);
    var s3 := Apply(w, s2, e[2]);
    var s4 := Apply(w, s3, e[3]);
    assert e[1..][0] == e[1] && e[1..][1..] == e[2..];
    assert e[2..][0] == e[2] && e[2..][1..] == e[3..];
    assert e[3..][0] == e[3] && e[3..][1..] == e[4..];
    assert e[4..][0] == e[4] && e[4..][1..] == [];
    assert Run(w, s, e) == Run(w, s1, e[1..]) == Run(w, s2, e[2..]) == Run(w, s3, e[3..]) == Run(w, s4, e[4..]);
    assert Run(w, s4, e[4..]) == Apply(w, s4, e[4]);
  }

  /** The rows already say what `input` says, as the gate judges it. */
  predicate Settled(db: Db, input: ReconcileInput) {
    var l := LabelOf(input.repo);
    && l in db.repos
    && var id := db.repos[l].id;
    && db.repos[l] == RepoRow(id, input.repo)
    && id in db.rows && var rows := db.rows[id];
    && rows.types == TypesTable(input.docTypes)
    && UpsertedKeys(rows.docs, DocEntries(input.documents)) == [] && Removed(rows.docs, DocEntries(input.documents)) == {}
    && UpsertedKeys(rows.pages, PageEntries(input.pages)) == [] && Removed(rows.pages, PageEntries(input.pages)) == {}
  }

  lemma SettledCommit(s: State, input: ReconcileInput, now: int)
    requires Settled(s.db, input)
    ensures Committed(s.db, s.next, input, now) == s.db
    ensures SyncOf(s.db, s.next, input) == Sync(s.db.repos[LabelOf(input.repo)].id, {}, {}, {}, {}, Fresh)
  {
    var l := LabelOf(input.repo);
    var id := s.db.repos[l].id;
    var rows := s.db.rows[id];
    NothingToDo(rows.docs, DocEntries(input.documents), now);
    NothingToDo(rows.pages, PageEntries(input.pages), now);
    assert ReconciledRows(rows, input, now) == rows;
    assert s.db.repos[l := RepoRow(id, input.repo)] == s.db.repos;
    assert s.db.rows[id := rows] == s.db.rows;
  }

  lemma NothingReported(w: World, l: Label, id: int, rows: Rows)
    ensures var y := Sync(id, {}, {}, {}, {}, Fresh);
            && Gone(w, y) == {} && Reported(w, y) == {}
            && DocRecords(l, y, rows) + PageRecords(w, l, y, rows) == map[]
  {
  }

  /** A run of `input` would commit, start no new id, and find its rows settled. */
  predicate Rerunnable(s: State, input: ReconcileInput) {
    var l := LabelOf(input.repo);
    && Settled(s.db, input) && Commits(s, input, false)
    && s.db.repos[l].id in s.owner && s.owner[s.db.repos[l].id] == l
  }

  lemma SettledIngest(w: World, s: State, input: ReconcileInput, now: int)
    requires Rerunnable(s, input)
    ensures var l := LabelOf(input.repo);
            Apply(w, s, Ingest(input, now, false)) ==
            s.(next := s.next + 1, syncs := s.syncs[l := Sync(s.db.repos[l].id, {}, {}, {}, {}, Fresh)])
  {
    SettledCommit(s, input, now);
    var l := LabelOf(input.repo);
    assert s.owner[s.db.repos[l].id := l] == s.owner;
  }

  lemma PutAndTake<K, V>(m: map<K, V>, k: K, v: V)
    requires k !in m
    ensures m[k := v] - {k} == m
  {
  }

  lemma NothingMerged<K, V>(m: map<K, V>)
    ensures m - {} + map[] == m
  {
  }

  lemma EmptySync(w: World, s: State, l: Label, id: int)
    requires l !in s.syncs
    ensures Synced(w, s.(syncs := s.syncs[l := Sync(id, {}, {}, {}, {}, Fresh)]), l, FAULTLESS) == s
  {
    var t := s.(syncs := s.syncs[l := Sync(id, {}, {}, {}, {}, Fresh)]);
    SyncedWhenOk(w, t, l, FAULTLESS);
    NothingReported(w, l, id, RowsAt(s.db, id));
    PutAndTake(s.syncs, l, Sync(id, {}, {}, {}, {}, Fresh));
    NothingMerged(s.index);
  }

  /** A run over rows that already say the same changes nothing anywhere but the serial: not the rows, not the
      index, not the dirty set. */
  lemma RunOverSettled(w: World, s: State, input: ReconcileInput, now: int)
    requires Rerunnable(s, input)
    ensures Run(w, s, Full(input, now)) == s.(next := s.next + 1)
  {
    var l := LabelOf(input.repo);
    FullIs(w, s, input, now);
    SettledIngest(w, s, input, now);
    EmptySync(w, s.(next := s.next + 1), l, s.db.repos[l].id);
  }

  lemma AgainSplit(w: World, s: State, input: ReconcileInput, stamps: seq<int>)
    requires stamps != []
    ensures Run(w, s, Again(input, stamps)) ==
            Run(w, Run(w, s, Again(input, stamps[..|stamps| - 1])), Full(input, stamps[|stamps| - 1]))
  {
    RunConcat(w, s, Again(input, stamps[..|stamps| - 1]), Full(input, stamps[|stamps| - 1]));
  }

  function Later(s: State, n: nat): State {
    s.(next := s.next + n)
  }

  lemma LaterRun(w: World, s: State, input: ReconcileInput, n: nat, now: int)
    requires Rerunnable(s, input)
    ensures Run(w, Later(s, n), Full(input, now)) == Later(s, n + 1)
  {
    RunOverSettled(w, Later(s, n), input, now);
  }

  lemma {:induction false} RunsOverSettled(w: World, s: State, input: ReconcileInput, stamps: seq<int>)
    requires Rerunnable(s, input)
    ensures Run(w, s, Again(input, stamps)) == Later(s, |stamps|)
  {
    if stamps == [] {
      assert Later(s, 0) == s;
    } else {
      var n := |stamps| - 1;
      AgainSplit(w, s, input, stamps);
      RunsOverSettled(w, s, input, stamps[..n]);
      LaterRun(w, s, input, n, stamps[n]);
    }
  }

  /** What a commit leaves is settled, exactly when no id is desired under two hashes. */
  lemma CommitSettles(s: State, input: ReconcileInput, now: int)
    requires Commits(s, input, false)
    ensures Settled(Committed(s.db, s.next, input, now), input) <==>
            OneHashPerKey(DocEntries(input.documents)) && OneHashPerKey(PageEntries(input.pages))
  {
    var rows := RowsAt(s.db, RepoIDFor(s.db, LabelOf(input.repo), s.next));
    IdempotentIff(rows.docs, DocEntries(input.documents), now);
    IdempotentIff(rows.pages, PageEntries(input.pages), now);
  }

  /** After a commit, whatever index calls, reads, crashes and purges follow: once the run is over, any number of
      complete, fault-free runs of the same HEAD change nothing but the serial. */
  lemma SameHeadChangesNothing(w: World, s: State, input: ReconcileInput, now: int, steps: seq<Event>, stamps: seq<int>)
    requires Commits(s, input, false)
    requires OneHashPerKey(DocEntries(input.documents)) && OneHashPerKey(PageEntries(input.pages))
    requires forall i :: 0 <= i < |steps| ==> Quiet(steps[i])
    requires LabelOf(input.repo) !in Run(w, Ingested(s, input, now), steps).syncs
    ensures var over := Run(w, Ingested(s, input, now), steps);
            Run(w, over, Again(input, stamps)) == Later(over, |stamps|)
  {
    QuietRun(w, Ingested(s, input, now), steps);
    StillRerunnable(s, Run(w, Ingested(s, input, now), steps), input, now);
    RunsOverSettled(w, Run(w, Ingested(s, input, now), steps), input, stamps);
  }

  lemma StillRerunnable(s: State, t: State, input: ReconcileInput, now: int)
    requires Commits(s, input, false) && RowsKept(Ingested(s, input, now), t) && LabelOf(input.repo) !in t.syncs
    requires OneHashPerKey(DocEntries(input.documents)) && OneHashPerKey(PageEntries(input.pages))
    ensures Rerunnable(t, input)
  {
    CommitSettles(s, input, now);
  }

  lemma {:induction false} QuietRun(w: World, s: State, steps: seq<Event>)
    requires forall i :: 0 <= i < |steps| ==> Quiet(steps[i])
    ensures RowsKept(s, Run(w, s, steps))
    decreases |steps|
  {
    if steps != [] {
      QuietStep(w, s, steps[0]);
      assert forall i :: 0 <= i < |steps[1..]| ==> steps[1..][i] == steps[i + 1];
      QuietRun(w, Apply(w, s, steps[0]), steps[1..]);
    }
  }

  /** The four sync steps with these answers, as events. */
  function Steps(l: Label, env: Env): seq<Event> {
    [SyncDelete(l, env.delete), SyncReadDocs(l, env.docsOk), SyncReadPages(l, env.pagesOk), SyncIndex(l, env.add)]
  }

  lemma StepsAre(w: World, s: State, l: Label, env: Env)
    ensures Run(w, s, Steps(l, env)) == Synced(w, s, l, env)
  {
    var e := Steps(l, env);
    var s1 := Apply(w, s, e[0]);
    var s2 := Apply(w, s1, e[1]);
    var s3 := Apply(w, s2, e[2]);
    assert e[1..][0] == e[1] && e[1..][1..] == e[2..];
    assert e[2..][0] == e[2] && e[2..][1..] == e[3..];
    assert e[3..][0] == e[3] && e[3..][1..] == [];
    assert Run(w, s, e) == Run(w, s1, e[1..]) == Run(w, s2, e[2..]) == Run(w, s3, e[3..]);
    assert Run(w, s3, e[3..]) == Apply(w, s3, e[3]);
  }

  /** The sync of this commit fails: at its delete, at a read or at its add. */
  ghost predicate SyncFails(w: World, s: State, input: ReconcileInput, env: Env) {
    !SyncOk(w, LabelOf(input.repo), SyncOf(s.db, s.next, input), RowsAfter(s, input, env.now), env)
  }

  lemma PlayedKeepsRows(w: World, s: State, input: ReconcileInput, env: Env)
    requires Commits(s, input, false)
    ensures RowsKept(Ingested(s, input, env.now), Played(w, s, input, env))
  {
    var steps := Steps(LabelOf(input.repo), env);
    assert forall i :: 0 <= i < |steps| ==> Quiet(steps[i]);
    assert Apply(w, s, Ingest(input, env.now, false)) == Ingested(s, input, env.now);
    QuietRun(w, Ingested(s, input, env.now), steps);
    StepsAre(w, Ingested(s, input, env.now), LabelOf(input.repo), env);
  }

  lemma PlayedThenAgain(w: World, s: State, input: ReconcileInput, env: Env, stamps: seq<int>)
    requires Commits(s, input, false)
    requires OneHashPerKey(DocEntries(input.documents)) && OneHashPerKey(PageEntries(input.pages))
    ensures var t := Played(w, s, input, env);
            Run(w, t, Again(input, stamps)) == Later(t, |stamps|)
  {
    PlayedKeepsRows(w, s, input, env);
    assert LabelOf(input.repo) !in Played(w, s, input, env).syncs by { PlayedIs(w, s, input, env); }
    StillRerunnable(s, Played(w, s, input, env), input, env.now);
    RunsOverSettled(w, Played(w, s, input, env), input, stamps);
  }

  /** The comment at indexSearch says that the next reconcile re-indexes what a failed sync missed. It does
      not: wherever the sync failed, its reported keys are dirty, and any number of complete, fault-free runs of
      the same HEAD leave the index and the dirty set as the failure left them. */
  lemma SameHeadNeverRepairs(w: World, s: State, input: ReconcileInput, env: Env, stamps: seq<int>)
    requires Commits(s, input, false) && SyncFails(w, s, input, env)
    requires OneHashPerKey(DocEntries(input.documents)) && OneHashPerKey(PageEntries(input.pages))
    ensures var failed := Played(w, s, input, env);
            && failed.dirty == s.dirty + Reported(w, SyncOf(s.db, s.next, input))
            && Run(w, failed, Again(input, stamps)) == Later(failed, |stamps|)
  {
    PlayedIs(w, s, input, env);
    PlayedThenAgain(w, s, input, env, stamps);
  }

  // ---------------------------------------------------------------- what stays wrong

  /** The add never reached the index. */
  predicate NeverAdded(w: World, y: Sync, env: Env) {
    !DeleteOk(w, y, env) || !ReadOk(y, env) || env.add.Lost?
  }

  lemma OutsideImage(w: World, l: Label, id: int, rows: Rows, docID: string)
    requires Sound(w) && Fits(w, rows) && docID in w.docIDs
    ensures PrimaryKey(id, docID) in Image(w.digest, l, id, rows) <==> docID in rows.docs
  {
    var k := PrimaryKey(id, docID);
    forall d | PrimaryKey(id, d) == k ensures d == docID {
      PrimaryKeyInjective(id, d, id, docID);
    }
    assert k in DocKeys(id, rows.docs.Keys) <==> docID in rows.docs;
    FamiliesApart(w.digest, id, w.docIDs, w.paths, id);
    assert k in DocKeys(id, w.docIDs) && PageKeys(w.digest, id, rows.pages.Keys) <= PageKeys(w.digest, id, w.paths);
  }

  /** What the index says about one document key of the repo that ran. */
  ghost predicate DocAgrees(w: World, t: State, l: Label, docID: string)
    requires l in t.db.repos
  {
    AgreeAt(t.index, ImageOf(w, t, l), PrimaryKey(t.db.repos[l].id, docID))
  }

  /** A new document whose record was never added. */
  predicate MissedNew(w: World, s: State, input: ReconcileInput, env: Env, docID: string) {
    && docID in KeySet(DocEntries(input.documents)) && docID !in RowsAt(s.db, RepoIDFor(s.db, LabelOf(input.repo), s.next)).docs
    && NeverAdded(w, SyncOf(s.db, s.next, input), env)
  }

  /** A removed document whose record was never deleted. */
  predicate MissedOld(s: State, input: ReconcileInput, env: Env, docID: string) {
    docID in Removed(RowsAt(s.db, RepoIDFor(s.db, LabelOf(input.repo), s.next)).docs, DocEntries(input.documents)) && env.delete.Lost?
  }

  /** Before the run the index holds a clean document key exactly when its row is there. */
  lemma CleanBefore(w: World, s: State, l: Label, docID: string)
    requires Inv(w, s) && l !in s.syncs && docID in w.docIDs
    requires PrimaryKey(RepoIDFor(s.db, l, s.next), docID) !in s.dirty
    ensures var id := RepoIDFor(s.db, l, s.next);
            PrimaryKey(id, docID) in s.index <==> docID in RowsAt(s.db, id).docs
  {
    var id := RepoIDFor(s.db, l, s.next);
    OwnsPrimary(id, docID);
    BeforeCommit(w, s, l, PrimaryKey(id, docID));
    assert Fits(w, RowsAt(s.db, id));
    OutsideImage(w, l, id, RowsAt(s.db, id), docID);
  }

  lemma NewStaysOut(w: World, s: State, input: ReconcileInput, env: Env, docID: string)
    requires Inv(w, s) && Commits(s, input, false) && Known(w, Ingest(input, env.now, false)) && MissedNew(w, s, input, env, docID)
    requires PrimaryKey(RepoIDFor(s.db, LabelOf(input.repo), s.next), docID) !in s.dirty
    ensures PrimaryKey(RepoIDFor(s.db, LabelOf(input.repo), s.next), docID) !in Played(w, s, input, env).index
  {
    PlayedIs(w, s, input, env);
    CleanBefore(w, s, LabelOf(input.repo), docID);
  }

  lemma OldStaysIn(w: World, s: State, input: ReconcileInput, env: Env, docID: string)
    requires Inv(w, s) && Commits(s, input, false) && MissedOld(s, input, env, docID)
    requires PrimaryKey(RepoIDFor(s.db, LabelOf(input.repo), s.next), docID) !in s.dirty
    ensures PrimaryKey(RepoIDFor(s.db, LabelOf(input.repo), s.next), docID) in Played(w, s, input, env).index
  {
    var id := RepoIDFor(s.db, LabelOf(input.repo), s.next);
    var y := SyncOf(s.db, s.next, input);
    PlayedIs(w, s, input, env);
    assert Fits(w, RowsAt(s.db, id));
    CleanBefore(w, s, LabelOf(input.repo), docID);
    assert PrimaryKey(id, docID) in DocKeys(id, y.goneDocs);
    assert PrimaryKey(id, docID) in Gone(w, y);
  }

  /** So the index is not merely suspect: after any number of further runs it still lacks the document that was
      added, or still serves the one that was removed. */
  lemma MissedSyncStaysWrong(w: World, s: State, input: ReconcileInput, env: Env, stamps: seq<int>, docID: string)
    requires Inv(w, s) && Commits(s, input, false) && Known(w, Ingest(input, env.now, false)) && SyncFails(w, s, input, env)
    requires OneHashPerKey(DocEntries(input.documents)) && OneHashPerKey(PageEntries(input.pages))
    requires MissedNew(w, s, input, env, docID) || MissedOld(s, input, env, docID)
    requires var k := PrimaryKey(RepoIDFor(s.db, LabelOf(input.repo), s.next), docID); k !in s.dirty
    ensures var t := Run(w, Played(w, s, input, env), Again(input, stamps));
            LabelOf(input.repo) in t.db.repos && !DocAgrees(w, t, LabelOf(input.repo), docID)
  {
    var l, id := LabelOf(input.repo), RepoIDFor(s.db, LabelOf(input.repo), s.next);
    PlayedIs(w, s, input, env);
    SameHeadNeverRepairs(w, s, input, env, stamps);
    if MissedNew(w, s, input, env, docID) {
      NewStaysOut(w, s, input, env, docID);
    } else {
      OldStaysIn(w, s, input, env, docID);
    }
    CommitBase(w, s, input, env.now);
    ReconciledKeys(RowsAt(s.db, id).docs, DocEntries(input.documents), env.now);
    assert Fits(w, RowsAt(s.db, id));
    OutsideImage(w, l, id, RowsAfter(s, input, env.now), docID);
  }

  // ---------------------------------------------------------------- what a later run repairs

  /** A complete run commits and takes the reported keys out of the dirty set. */
  lemma FullRun(w: World, s: State, input: ReconcileInput, now: int)
    requires Commits(s, input, false)
    ensures var t := Run(w, s, Full(input, now));
            && t.db == Committed(s.db, s.next, input, now)
            && t.dirty == s.dirty - Reported(w, SyncOf(s.db, s.next, input))
            && LabelOf(input.repo) !in t.syncs
  {
    FullIs(w, s, input, now);
    SyncedWhenOk(w, Apply(w, s, Ingest(input, now, false)), LabelOf(input.repo), FAULTLESS);
  }

  /** Judged before the run, from the stored hashes and the desired ones: the key is stored and not desired, or
      desired under a hash that is not the stored one. */
  predicate GateReports<V>(cur: Table<V>, desired: seq<Entry<V>>, k: string) {
    || k in Removed(cur, desired)
    || exists i :: 0 <= i < |desired| && desired[i].key == k && !Same(cur, desired[i])
  }

  /** What a later run does repair: after one complete run of any input, a document's key is dirty exactly when it
      was dirty and the gate had nothing to report for it. */
  lemma RepairedExactlyWhenReported(w: World, s: State, input: ReconcileInput, now: int, docID: string)
    requires Inv(w, s) && Commits(s, input, false) && Known(w, Ingest(input, now, false)) && docID in w.docIDs
    ensures var id := RepoIDFor(s.db, LabelOf(input.repo), s.next);
            PrimaryKey(id, docID) in Run(w, s, Full(input, now)).dirty <==>
              PrimaryKey(id, docID) in s.dirty && !GateReports(RowsAt(s.db, id).docs, DocEntries(input.documents), docID)
  {
    var rows := RowsAt(s.db, RepoIDFor(s.db, LabelOf(input.repo), s.next));
    FullRun(w, s, input, now);
    UpsertedKeysIff(rows.docs, DocEntries(input.documents));
    SyncOfFits(w, s, input, now);
    ReportedDoc(w, SyncOf(s.db, s.next, input), docID);
  }

  /** The same for a page's key. */
  lemma PageRepairedExactlyWhenReported(w: World, s: State, input: ReconcileInput, now: int, path: string)
    requires Inv(w, s) && Commits(s, input, false) && Known(w, Ingest(input, now, false)) && path in w.paths
    ensures var id := RepoIDFor(s.db, LabelOf(input.repo), s.next);
            PagePrimaryKey(w.digest, id, path) in Run(w, s, Full(input, now)).dirty <==>
              PagePrimaryKey(w.digest, id, path) in s.dirty
              && !GateReports(RowsAt(s.db, id).pages, PageEntries(input.pages), path)
  {
    var rows := RowsAt(s.db, RepoIDFor(s.db, LabelOf(input.repo), s.next));
    FullRun(w, s, input, now);
    UpsertedKeysIff(rows.pages, PageEntries(input.pages));
    SyncOfFits(w, s, input, now);
    ReportedPage(w, SyncOf(s.db, s.next, input), path);
  }

  lemma SyncOfFits(w: World, s: State, input: ReconcileInput, now: int)
    requires Inv(w, s) && Known(w, Ingest(input, now, false))
    ensures var y := SyncOf(s.db, s.next, input);
            y.gonePages <= w.paths && y.pages <= w.paths && y.goneDocs <= w.docIDs && y.docs <= w.docIDs
  {
    var id := RepoIDFor(s.db, LabelOf(input.repo), s.next);
    UpsertedKeysIff(RowsAt(s.db, id).pages, PageEntries(input.pages));
    UpsertedKeysIff(RowsAt(s.db, id).docs, DocEntries(input.documents));
    assert Fits(w, RowsAt(s.db, id));
  }

  lemma ReportedDoc(w: World, y: Sync, docID: string)
    requires Sound(w) && docID in w.docIDs && y.gonePages <= w.paths && y.pages <= w.paths
    ensures PrimaryKey(y.id, docID) in Reported(w, y) <==> docID in y.goneDocs || docID in y.docs
  {
    forall d | PrimaryKey(y.id, d) == PrimaryKey(y.id, docID) ensures d == docID {
      PrimaryKeyInjective(y.id, d, y.id, docID);
    }
    forall p | p in w.paths ensures PrimaryKey(y.id, docID) != PagePrimaryKey(w.digest, y.id, p) {
      FamiliesMeet(w.digest, y.id, docID, y.id, p);
    }
  }

  lemma ReportedPage(w: World, y: Sync, path: string)
    requires Sound(w) && path in w.paths && y.goneDocs <= w.docIDs && y.docs <= w.docIDs
    requires y.gonePages <= w.paths && y.pages <= w.paths
    ensures PagePrimaryKey(w.digest, y.id, path) in Reported(w, y) <==> path in y.gonePages || path in y.pages
  {
    var k := PagePrimaryKey(w.digest, y.id, path);
    forall p | p in w.paths && PagePrimaryKey(w.digest, y.id, p) == k ensures p == path {
      PageKeyInjective(w.digest, y.id, p, y.id, path);
    }
    forall d | d in w.docIDs ensures PrimaryKey(y.id, d) != k {
      FamiliesMeet(w.digest, y.id, d, y.id, path);
    }
  }
}
