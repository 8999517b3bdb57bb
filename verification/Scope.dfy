/** Search scoping: which repo ids records can carry, in any run of the mirror machine and whatever the page keys
    hash to. */
module Scope {
  import opened Text
  import opened Config
  import opened Pages
  import opened Documents
  import opened Gate
  import opened Tables
  import opened IndexKeys
  import opened SearchFilter
  import opened Mirror

  // ---------------------------------------------------------------- every record names the repo it was made for

  /** A sync's id was handed out for its label, and so was every record it has read. */
  predicate SyncScoped(s: State, l: Label) {
    l in s.syncs ==> s.syncs[l].id in s.owner && s.owner[s.syncs[l].id] == l && Traced(s, RecordsOf(s.syncs[l].stage))
  }

  ghost predicate Scoped(s: State) {
    History(s) && Integrity(s.db, s.next) && Traced(s, s.index) && forall l :: SyncScoped(s, l)
  }

  predicate Quiet(e: Event) {
    e.SyncDelete? || e.SyncReadDocs? || e.SyncReadPages? || e.SyncIndex? || e.Crash? || e.OffboardList? || e.Purge?
  }

  lemma QuietSync(w: World, s: State, l: Label, o: Outcome, ok: bool)
    ensures RowsKept(s, Apply(w, s, SyncDelete(l, o)))
    ensures RowsKept(s, Apply(w, s, SyncReadDocs(l, ok)))
    ensures RowsKept(s, Apply(w, s, SyncReadPages(l, ok)))
    ensures RowsKept(s, Apply(w, s, SyncIndex(l, o)))
  {
  }

  /** Index calls and listings change no row and hand out no id. */
  lemma QuietStep(w: World, s: State, e: Event)
    requires Quiet(e)
    ensures RowsKept(s, Apply(w, s, e))
  {
    match e
    case SyncDelete(l, o) => QuietSync(w, s, l, o, true);
    case SyncReadDocs(l, ok) => QuietSync(w, s, l, Done, ok);
    case SyncReadPages(l, ok) => QuietSync(w, s, l, Done, ok);
    case SyncIndex(l, o) => QuietSync(w, s, l, o, true);
    case Crash(l) =>
    case OffboardList(h, i) =>
    case Purge(id, o) =>
  }

  lemma OwnerStep(w: World, s: State, e: Event)
    requires History(s) && Integrity(s.db, s.next)
    ensures s.next <= Apply(w, s, e).next
    ensures forall id :: id in s.owner ==> id in Apply(w, s, e).owner && Apply(w, s, e).owner[id] == s.owner[id]
    ensures forall id :: id in Apply(w, s, e).db.rows && id < s.next ==> id in s.db.rows
  {
    if Quiet(e) {
      QuietStep(w, s, e);
    } else if e.Ingest? {
      assert Apply(w, s, e) == ApplyIngest(s, e.input, e.now, e.fault);
    }
  }

  lemma SyncStepScoped(s: State, t: State, l: Label)
    requires Scoped(s) && l in s.syncs && RowsKept(s, t) && t.syncs - {l} == s.syncs - {l}
    requires Traced(t, t.index) && SyncScoped(t, l)
    ensures Scoped(t)
  {
    forall m ensures SyncScoped(t, m) {
      assert SyncScoped(s, m);
      if m != l {
        assert m in s.syncs <==> m in s.syncs - {l};
        assert m in t.syncs <==> m in t.syncs - {l};
        assert m in s.syncs ==> (s.syncs - {l})[m] == s.syncs[m] && (t.syncs - {l})[m] == t.syncs[m];
      }
    }
  }

  lemma AbandonScoped(w: World, s: State, l: Label, index: SearchIndex)
    requires Scoped(s) && l in s.syncs && Traced(s, index)
    ensures Scoped(Abandon(w, s.(index := index), l)) && Scoped(Finish(w, s.(index := index), l))
  {
    SyncStepScoped(s, Abandon(w, s.(index := index), l), l);
    SyncStepScoped(s, Finish(w, s.(index := index), l), l);
  }

  lemma AdvanceScoped(s: State, l: Label, index: SearchIndex, stage: Stage)
    requires Scoped(s) && l in s.syncs && Traced(s, index) && Traced(s, RecordsOf(stage))
    ensures Scoped(Advance(s.(index := index), l, stage))
  {
    assert SyncScoped(s, l);
    SyncStepScoped(s, Advance(s.(index := index), l, stage), l);
  }

  lemma DeleteScoped(w: World, s: State, l: Label, o: Outcome)
    requires Scoped(s) && l in s.syncs
    ensures Scoped(ApplyDelete(w, s, l, o))
  {
    var index := Tell(s.index, s.index - Gone(w, s.syncs[l]), o);
    assert s.(index := s.index) == s;
    if Gone(w, s.syncs[l]) == {} {
      AdvanceScoped(s, l, s.index, Cleared);
    } else if o.Done? {
      AdvanceScoped(s, l, index, Cleared);
    } else {
      AbandonScoped(w, s, l, index);
    }
  }

  lemma ReadDocsScoped(w: World, s: State, l: Label, ok: bool)
    requires Scoped(s) && l in s.syncs
    ensures Scoped(ApplyReadDocs(w, s, l, ok))
  {
    assert SyncScoped(s, l) && s.(index := s.index) == s;
    var y := s.syncs[l];
    DocRecordsTraced(w, s, l, y, RowsAt(s.db, y.id));
    if y.docs == {} {
      AdvanceScoped(s, l, s.index, DocsRead(map[]));
    } else if !ok {
      AbandonScoped(w, s, l, s.index);
    } else {
      AdvanceScoped(s, l, s.index, DocsRead(DocRecords(l, y, RowsAt(s.db, y.id))));
    }
  }

  lemma ReadPagesScoped(w: World, s: State, l: Label, ok: bool)
    requires Scoped(s) && l in s.syncs && s.syncs[l].stage.DocsRead?
    ensures Scoped(ApplyReadPages(w, s, l, ok))
  {
    assert SyncScoped(s, l) && s.(index := s.index) == s;
    var y := s.syncs[l];
    var records := PageRecords(w, l, y, RowsAt(s.db, y.id));
    PageRecordsTraced(w, s, l, y, RowsAt(s.db, y.id));
    TracedUnion(s, y.stage.records, records);
    if y.pages == {} {
      AdvanceScoped(s, l, s.index, AllRead(y.stage.records));
    } else if !ok {
      AbandonScoped(w, s, l, s.index);
    } else {
      AdvanceScoped(s, l, s.index, AllRead(y.stage.records + records));
    }
  }

  lemma IndexScoped(w: World, s: State, l: Label, o: Outcome)
    requires Scoped(s) && l in s.syncs && s.syncs[l].stage.AllRead?
    ensures Scoped(ApplyIndex(w, s, l, o))
  {
    assert SyncScoped(s, l) && s.(index := s.index) == s;
    var records := s.syncs[l].stage.records;
    TracedUnion(s, s.index, records);
    AbandonScoped(w, s, l, s.index);
    AbandonScoped(w, s, l, Tell(s.index, s.index + records, o));
  }

  /** A commit hands out at most the next serial, and never to a second label. */
  lemma IngestOwners(s: State, input: ReconcileInput, now: int)
    requires History(s)
    ensures var t := Ingested(s, input, now);
            History(t) && forall id :: id in s.owner ==> id in t.owner && t.owner[id] == s.owner[id]
  {
    var l, id := LabelOf(input.repo), RepoIDFor(s.db, LabelOf(input.repo), s.next);
    assert id in s.owner ==> s.owner[id] == l;
  }

  lemma TracedLater(s: State, t: State, records: SearchIndex)
    requires Traced(s, records) && forall id :: id in s.owner ==> id in t.owner && t.owner[id] == s.owner[id]
    ensures Traced(t, records)
  {
  }

  lemma IngestScoped(s: State, input: ReconcileInput, now: int)
    requires Scoped(s) && Commits(s, input, false)
    ensures Scoped(Ingested(s, input, now))
  {
    var t := Ingested(s, input, now);
    CommitKeepsIntegrity(s.db, s.next, input, now);
    IngestOwners(s, input, now);
    TracedLater(s, t, s.index);
    forall m ensures SyncScoped(t, m) {
      IngestSyncScoped(s, input, now, m);
    }
  }

  lemma IngestSyncScoped(s: State, input: ReconcileInput, now: int, m: Label)
    requires Scoped(s) && Commits(s, input, false)
    ensures SyncScoped(Ingested(s, input, now), m)
  {
    IngestOwners(s, input, now);
    assert SyncScoped(s, m);
    if m in s.syncs && m != LabelOf(input.repo) {
      TracedLater(s, Ingested(s, input, now), RecordsOf(s.syncs[m].stage));
    }
  }

  lemma RowsScoped(s: State, t: State)
    requires Scoped(s) && t.next >= s.next && Integrity(t.db, t.next)
    requires forall l :: l in t.db.repos ==> l in s.db.repos && t.db.repos[l].id == s.db.repos[l].id
    requires t.owner == s.owner && t.syncs == s.syncs && Traced(s, t.index)
    ensures Scoped(t)
  {
    forall m ensures SyncScoped(t, m) {
      assert SyncScoped(s, m);
    }
  }

  lemma StepScoped(w: World, s: State, e: Event)
    requires Scoped(s)
    ensures Scoped(Apply(w, s, e))
  {
    var t := Apply(w, s, e);
    match e
    case AddInstallation(i, row) => SameReposIntegrity(s.db, t.db, s.next, t.next); RowsScoped(s, t);
    case Ingest(input, now, fault) => IngestStepScoped(s, input, now, fault);
    case SyncDelete(l, o) => if l in s.syncs && s.syncs[l].stage.Fresh? { DeleteScoped(w, s, l, o); }
    case SyncReadDocs(l, ok) => if l in s.syncs && s.syncs[l].stage.Cleared? { ReadDocsScoped(w, s, l, ok); }
    case SyncReadPages(l, ok) => if l in s.syncs && s.syncs[l].stage.DocsRead? { ReadPagesScoped(w, s, l, ok); }
    case SyncIndex(l, o) => if l in s.syncs && s.syncs[l].stage.AllRead? { IndexScoped(w, s, l, o); }
    case Crash(l) => if l in s.syncs { assert s.(index := s.index) == s; AbandonScoped(w, s, l, s.index); }
    case OffboardList(h, i) => RowsScoped(s, t);
    case OffboardDelete(h) => if h in s.offboards { UninstallKeepsIntegrity(s.db, s.next, s.offboards[h].0); RowsScoped(s, t); }
    case RemoveRepo(l) => if l in s.db.repos { DropKeepsIntegrity(s.db, s.next, {l}); RowsScoped(s, t); }
    case Purge(id, o) => RowsScoped(s, t);
  }

  lemma IngestStepScoped(s: State, input: ReconcileInput, now: int, fault: bool)
    requires Scoped(s)
    ensures Scoped(ApplyIngest(s, input, now, fault))
  {
    if Commits(s, input, fault) {
      IngestScoped(s, input, now);
    } else {
      var t := ApplyIngest(s, input, now, fault);
      SameReposIntegrity(s.db, t.db, s.next, t.next);
      RowsScoped(s, t);
    }
  }

  lemma {:induction false} RunScoped(w: World, s: State, events: seq<Event>)
    requires Scoped(s)
    ensures Scoped(Run(w, s, events))
    decreases |events|
  {
    if events != [] {
      StepScoped(w, s, events[0]);
      RunScoped(w, Apply(w, s, events[0]), events[1..]);
    }
  }

  // ---------------------------------------------------------------- ids are never reused

  /** An id keeps the label it was made for, and an id whose rows are gone never has rows again. */
  lemma {:induction false} IdsNeverReused(w: World, s: State, events: seq<Event>)
    requires Scoped(s)
    ensures var t := Run(w, s, events);
            && s.next <= t.next
            && (forall id :: id in s.owner ==> id in t.owner && t.owner[id] == s.owner[id])
            && (forall id :: id < s.next && id !in s.db.rows ==> id !in t.db.rows && !Owned(t.db, id))
    decreases |events|
  {
    if events != [] {
      StepScoped(w, s, events[0]);
      OwnerStep(w, s, events[0]);
      IdsNeverReused(w, Apply(w, s, events[0]), events[1..]);
    }
  }

  // ---------------------------------------------------------------- what a search can return

  function SourceText(src: Source): string {
    if src.SourceDoc? then "doc" else "page"
  }

  /** The filterable attributes buildFilter names. */
  function FieldOf(d: IndexDoc, field: string): string {
    if field == "repo" then d.repo
    else if field == "type" then d.docType
    else if field == "status" then d.status
    else if field == "author" then d.author
    else if field == "source" then SourceText(d.source)
    else ""
  }

  predicate Matches(d: IndexDoc, c: Clause) {
    match c
    case RepoIn(ids) => d.repoID in ids
    case Eq(field, value) => FieldOf(d, field) == value
  }

  predicate Hit(index: SearchIndex, clauses: seq<Clause>, k: string) {
    k in index && forall i :: 0 <= i < |clauses| ==> Matches(index[k], clauses[i])
  }

  /** The search engine reads the filter text and returns what matches every clause. */
  predicate Served(index: SearchIndex, filter: string, k: string) {
    match ReadFilter(filter)
    case None => false
    case Some(clauses) => Hit(index, clauses, k)
  }

  ghost predicate ExactlyTheRepos(db: Db, ids: seq<int>) {
    forall id :: id in ids <==> Owned(db, id)
  }

  /** The authorizer read the repos after `before`; the search ran after `later` more steps, on the filter text
      printed for those ids and whatever facets. Every hit belongs to a repo that existed at the first moment,
      under that repo's id and label; with no repos there is no hit. Purges may have failed, syncs may have landed
      after the repo was gone, and page keys may collide: no record of another repo is served. */
  lemma HitsAreAllowed(w: World, before: seq<Event>, later: seq<Event>, ids: seq<int>, p: SearchParams, k: string)
    requires ExactlyTheRepos(Run(w, INITIAL, before).db, ids) && p.allowed == Some(ids)
    requires Served(Run(w, INITIAL, before + later).index, FilterText(p), k)
    ensures var then_, d := Run(w, INITIAL, before), Run(w, INITIAL, before + later).index[k];
            exists l :: l in then_.db.repos && then_.db.repos[l].id == d.repoID && RepoText(l) == d.repo
  {
    var s := Run(w, INITIAL, before);
    RunScoped(w, INITIAL, before);
    RunConcat(w, INITIAL, before, later);
    var t := Run(w, s, later);
    RunScoped(w, s, later);
    IdsNeverReused(w, s, later);
    FilterRoundTrips(p);
    var d := t.index[k];
    assert Matches(d, ClausesOf(p)[0]);
    assert d.repoID in t.owner && d.repoID != -1 && ids != [];
    assert d.repoID in ids;
    var l :| l in s.db.repos && s.db.repos[l].id == d.repoID;
    assert t.owner[d.repoID] == s.owner[d.repoID] == l;
  }
}
