/** The whole system as a state machine over the rows and the search index: ingests, the steps of the index
    sync that follows each commit, and offboarding with its purges, in any interleaving and any outcome. */
module Mirror {
  import opened Text
  import opened Config
  import opened Pages
  import opened Documents
  import opened Gate
  import opened Tables
  import opened IndexKeys

  type SearchIndex = map<string, IndexDoc>

  /** The hash behind page keys, and every document id and published path the run ever names. */
  datatype World = World(digest: string -> string, docIDs: set<string>, paths: set<string>)

  datatype Stage =
    | Fresh
    | Cleared
    | DocsRead(records: SearchIndex)
    | AllRead(records: SearchIndex)

  /** syncIndex for one committed reconcile: the reported ids and paths, and how far it has come. */
  datatype Sync = Sync(
    id: int, goneDocs: set<string>, gonePages: set<string>, docs: set<string>, pages: set<string>, stage: Stage)

  /** `dirty` and `owner` are history: keys whose last sync failed, and the label each repo id was made for.
      `syncs` holds the run in progress per repo label, `offboards` the id lists collected before a delete,
      `purges` the index purges still to be called. */
  datatype State = State(
    db: Db, next: int, index: SearchIndex, dirty: set<string>, owner: map<int, Label>,
    syncs: map<Label, Sync>, offboards: map<int, (int, set<int>)>, purges: multiset<int>)

  datatype Event =
    | AddInstallation(installation: int, row: Installation)
    | Ingest(input: ReconcileInput, now: int, fault: bool)
    | SyncDelete(lbl: Label, outcome: Outcome)
    | SyncReadDocs(lbl: Label, ok: bool)
    | SyncReadPages(lbl: Label, ok: bool)
    | SyncIndex(lbl: Label, outcome: Outcome)
    | Crash(lbl: Label)
    | OffboardList(handle: int, installation: int)
    | OffboardDelete(handle: int)
    | RemoveRepo(lbl: Label)
    | Purge(id: int, outcome: Outcome)

  const INITIAL := State(Db(map[], map[], map[], {}), 1, map[], {}, map[], map[], map[], multiset{})

  // ---------------------------------------------------------------- one step

  function Elems(s: seq<string>): set<string> {
    set x | x in s
  }

  function Restrict<V>(t: Table<V>, ids: set<string>): Table<V> {
    map d | d in t && d in ids :: t[d]
  }

  function Gone(w: World, y: Sync): set<string> {
    DocKeys(y.id, y.goneDocs) + PageKeys(w.digest, y.id, y.gonePages)
  }

  function Upserted(w: World, y: Sync): set<string> {
    DocKeys(y.id, y.docs) + PageKeys(w.digest, y.id, y.pages)
  }

  /** Every index key the reconcile reported. */
  function Reported(w: World, y: Sync): set<string> {
    Gone(w, y) + Upserted(w, y)
  }

  /** The sync of the report a commit of `input` returns. */
  function SyncOf(db: Db, next: int, input: ReconcileInput): Sync {
    var id := RepoIDFor(db, LabelOf(input.repo), next);
    var rows := RowsAt(db, id);
    var docs, pages := DocEntries(input.documents), PageEntries(input.pages);
    Sync(id, Removed(rows.docs, docs), Removed(rows.pages, pages),
         Elems(UpsertedKeys(rows.docs, docs)), Elems(UpsertedKeys(rows.pages, pages)), Fresh)
  }

  predicate RowsKept(s: State, t: State) {
    t.db == s.db && t.next == s.next && t.owner == s.owner
  }

  function Abandon(w: World, s: State, l: Label): (t: State)
    requires l in s.syncs
    ensures RowsKept(s, t)
  {
    s.(dirty := s.dirty + Reported(w, s.syncs[l]), syncs := s.syncs - {l})
  }

  function Finish(w: World, s: State, l: Label): (t: State)
    requires l in s.syncs
    ensures RowsKept(s, t)
  {
    s.(dirty := s.dirty - Reported(w, s.syncs[l]), syncs := s.syncs - {l})
  }

  function Advance(s: State, l: Label, stage: Stage): (t: State)
    requires l in s.syncs
    ensures RowsKept(s, t)
  {
    s.(syncs := s.syncs[l := s.syncs[l].(stage := stage)])
  }

  function Tell(index: SearchIndex, changed: SearchIndex, o: Outcome): SearchIndex {
    if o.Lost? then index else changed
  }

  function KeysOf(index: SearchIndex, id: int): set<string> {
    set k | k in index && index[k].repoID == id
  }

  /** The repo has no run in progress, its installation is there, and the driver does not fail. */
  predicate Commits(s: State, input: ReconcileInput, fault: bool) {
    LabelOf(input.repo) !in s.syncs && !fault && input.repo.installation in s.db.installations
  }

  /** The state after a committed ingest, its sync about to start. */
  function Ingested(s: State, input: ReconcileInput, now: int): State {
    var l := LabelOf(input.repo);
    s.(db := Committed(s.db, s.next, input, now), next := s.next + 1,
       owner := s.owner[RepoIDFor(s.db, l, s.next) := l],
       syncs := s.syncs[l := SyncOf(s.db, s.next, input)])
  }

  /** A refused transaction uses up a serial; a run that the queue holds back does not even start. */
  function ApplyIngest(s: State, input: ReconcileInput, now: int, fault: bool): State {
    if Commits(s, input, fault) then Ingested(s, input, now)
    else s.(next := s.next + if LabelOf(input.repo) in s.syncs then 0 else 1)
  }

  function ApplyDelete(w: World, s: State, l: Label, o: Outcome): (t: State)
    requires l in s.syncs
    ensures RowsKept(s, t)
  {
    var gone := Gone(w, s.syncs[l]);
    if gone == {} then Advance(s, l, Cleared)
    else
      var told := s.(index := Tell(s.index, s.index - gone, o));
      if o.Done? then Advance(told, l, Cleared) else Abandon(w, told, l)
  }

  function ApplyReadDocs(w: World, s: State, l: Label, ok: bool): (t: State)
    requires l in s.syncs
    ensures RowsKept(s, t)
  {
    var y := s.syncs[l];
    if y.docs == {} then Advance(s, l, DocsRead(map[]))
    else if !ok then Abandon(w, s, l)
    else Advance(s, l, DocsRead(DocImage(l, y.id, Restrict(RowsAt(s.db, y.id).docs, y.docs))))
  }

  ghost function ApplyReadPages(w: World, s: State, l: Label, ok: bool): (t: State)
    requires l in s.syncs && s.syncs[l].stage.DocsRead?
    ensures RowsKept(s, t)
  {
    var y := s.syncs[l];
    if y.pages == {} then Advance(s, l, AllRead(y.stage.records))
    else if !ok then Abandon(w, s, l)
    else Advance(s, l, AllRead(y.stage.records + PageImage(w.digest, l, y.id, Restrict(RowsAt(s.db, y.id).pages, y.pages))))
  }

  function ApplyIndex(w: World, s: State, l: Label, o: Outcome): (t: State)
    requires l in s.syncs && s.syncs[l].stage.AllRead?
    ensures RowsKept(s, t)
  {
    var records := s.syncs[l].stage.records;
    if records == map[] then Finish(w, s, l)
    else
      var told := s.(index := Tell(s.index, s.index + records, o));
      if o.Done? then Finish(w, told, l) else Abandon(w, told, l)
  }

  /** A purge that takes records away from a repo that still exists (it moved to another installation
      after the ids were listed) leaves their keys dirty. */
  ghost function ApplyPurge(s: State, id: int, o: Outcome): State {
    var hit := if o.Lost? then {} else KeysOf(s.index, id);
    s.(purges := s.purges - multiset{id}, index := s.index - hit,
       dirty := if Owned(s.db, id) then s.dirty + hit else s.dirty)
  }

  /** An event that is not possible in the state leaves it as it is. */
  ghost function Apply(w: World, s: State, e: Event): State {
    match e
    case AddInstallation(i, row) => s.(db := s.db.(installations := s.db.installations[i := row]))
    case Ingest(input, now, fault) => ApplyIngest(s, input, now, fault)
    case SyncDelete(l, o) => if l in s.syncs && s.syncs[l].stage.Fresh? then ApplyDelete(w, s, l, o) else s
    case SyncReadDocs(l, ok) => if l in s.syncs && s.syncs[l].stage.Cleared? then ApplyReadDocs(w, s, l, ok) else s
    case SyncReadPages(l, ok) => if l in s.syncs && s.syncs[l].stage.DocsRead? then ApplyReadPages(w, s, l, ok) else s
    case SyncIndex(l, o) => if l in s.syncs && s.syncs[l].stage.AllRead? then ApplyIndex(w, s, l, o) else s
    case Crash(l) => if l in s.syncs then Abandon(w, s, l) else s
    case OffboardList(h, i) =>
      if h in s.offboards then s
      else s.(offboards := s.offboards[h := (i, set l | l in LabelsOf(s.db, i) :: s.db.repos[l].id)])
    case OffboardDelete(h) =>
      if h !in s.offboards then s
      else s.(db := Uninstalled(s.db, s.offboards[h].0), offboards := s.offboards - {h},
              purges := s.purges + multiset(s.offboards[h].1))
    case RemoveRepo(l) =>
      if l !in s.db.repos then s
      else s.(db := DropRepos(s.db, {l}), purges := s.purges + multiset{s.db.repos[l].id})
    case Purge(id, o) => if id in s.purges then ApplyPurge(s, id, o) else s
  }

  ghost function Run(w: World, s: State, events: seq<Event>): State
    decreases |events|
  {
    if events == [] then s else Run(w, Apply(w, s, events[0]), events[1..])
  }

  lemma {:induction false} RunConcat(w: World, s: State, a: seq<Event>, b: seq<Event>)
    ensures Run(w, s, a + b) == Run(w, Run(w, s, a), b)
    decreases |a|
  {
    if a == [] {
      assert a + b == b;
    } else {
      assert (a + b)[1..] == a[1..] + b;
      RunConcat(w, Apply(w, s, a[0]), a[1..], b);
    }
  }

  // ---------------------------------------------------------------- the invariant

  predicate Known(w: World, e: Event) {
    e.Ingest? ==> KeySet(DocEntries(e.input.documents)) <= w.docIDs && KeySet(PageEntries(e.input.pages)) <= w.paths
  }

  predicate AllKnown(w: World, events: seq<Event>) {
    forall i :: 0 <= i < |events| ==> Known(w, events[i])
  }

  predicate Sound(w: World) {
    KeysApart(w.digest, w.docIDs, w.paths)
  }

  predicate Fits(w: World, rows: Rows) {
    rows.docs.Keys <= w.docIDs && rows.pages.Keys <= w.paths
  }

  /** Ids are handed out once, below the serial, and remember their label. */
  predicate History(s: State) {
    && 1 <= s.next
    && (forall id :: id in s.owner ==> 1 <= id < s.next)
    && (forall l :: l in s.db.repos ==> s.db.repos[l].id in s.owner && s.owner[s.db.repos[l].id] == l)
  }

  predicate Rowed(w: World, s: State) {
    Integrity(s.db, s.next) && forall id :: id in s.db.rows ==> Fits(w, s.db.rows[id])
  }

  predicate Traced(s: State, records: SearchIndex) {
    forall k :: k in records ==> records[k].repoID in s.owner && RecordOf(s.owner[records[k].repoID], records[k].repoID, k, records[k])
  }

  function RecordsOf(stage: Stage): SearchIndex {
    if stage.DocsRead? || stage.AllRead? then stage.records else map[]
  }

  predicate SyncTraced(w: World, s: State, l: Label) {
    l in s.syncs ==>
      && var y := s.syncs[l];
      && y.id in s.owner && s.owner[y.id] == l
      && (l in s.db.repos ==> s.db.repos[l].id == y.id)
      && y.goneDocs <= w.docIDs && y.gonePages <= w.paths
      && Traced(s, RecordsOf(y.stage)) && RecordsOf(y.stage).Keys <= Upserted(w, y)
  }

  function DocRecords(l: Label, y: Sync, rows: Rows): SearchIndex {
    DocImage(l, y.id, Restrict(rows.docs, y.docs))
  }

  ghost function PageRecords(w: World, l: Label, y: Sync, rows: Rows): SearchIndex {
    PageImage(w.digest, l, y.id, Restrict(rows.pages, y.pages))
  }

  /** While its repo lives, a sync's removed keys have no row, its upserted ones have one, what it deleted
      stays deleted, and what it read is still what the rows say: the queue runs one ingest per repo. */
  ghost predicate SyncCurrent(w: World, s: State, l: Label) {
    l in s.syncs && l in s.db.repos ==>
      && var y := s.syncs[l];
      && var rows := RowsAt(s.db, y.id);
      && y.goneDocs !! rows.docs.Keys && y.gonePages !! rows.pages.Keys
      && y.docs <= rows.docs.Keys && y.pages <= rows.pages.Keys
      && (!y.stage.Fresh? ==> Gone(w, y) !! s.index.Keys)
      && (y.stage.DocsRead? ==> y.stage.records == DocRecords(l, y, rows))
      && (y.stage.AllRead? ==> y.stage.records == DocRecords(l, y, rows) + PageRecords(w, l, y, rows))
  }

  predicate AgreeAt(a: SearchIndex, b: SearchIndex, k: string) {
    (k in a <==> k in b) && (k in a ==> a[k] == b[k])
  }

  function Pending(w: World, s: State, l: Label): set<string> {
    if l in s.syncs then Reported(w, s.syncs[l]) else {}
  }

  ghost function ImageOf(w: World, s: State, l: Label): SearchIndex
    requires l in s.db.repos
  {
    Image(w.digest, l, s.db.repos[l].id, RowsAt(s.db, s.db.repos[l].id))
  }

  /** On each of this repo's keys that is neither dirty nor in the sync under way, the index holds exactly the
      record of the row, or nothing when there is no row. */
  ghost predicate Mirrors(w: World, s: State, l: Label) {
    l in s.db.repos ==>
      forall k :: Owns(s.db.repos[l].id, k) && k !in s.dirty && k !in Pending(w, s, l) ==> AgreeAt(s.index, ImageOf(w, s, l), k)
  }

  ghost predicate Inv(w: World, s: State) {
    && Sound(w) && History(s) && Rowed(w, s) && Traced(s, s.index)
    && (forall l :: SyncTraced(w, s, l) && SyncCurrent(w, s, l) && Mirrors(w, s, l))
  }

  // ---------------------------------------------------------------- images key by key

  lemma DocImageLocal(l: Label, id: int, a: Table<DocRow>, b: Table<DocRow>, k: string)
    requires forall d :: PrimaryKey(id, d) == k ==> (d in a <==> d in b) && (d in a ==> a[d] == b[d])
    ensures AgreeAt(DocImage(l, id, a), DocImage(l, id, b), k)
  {
    var m, n := DocImage(l, id, a), DocImage(l, id, b);
    if k in m {
      var d :| d in a && PrimaryKey(id, d) == k;
      assert m[PrimaryKey(id, d)] == ToIndexDoc(l, id, d, a[d]) && n[PrimaryKey(id, d)] == ToIndexDoc(l, id, d, b[d]);
    }
    if k in n {
      var d :| d in b && PrimaryKey(id, d) == k;
    }
  }

  lemma PageImageLocal(w: World, l: Label, id: int, a: Table<PageRow>, b: Table<PageRow>, k: string)
    requires KeysApart(w.digest, {}, w.paths) && a.Keys <= w.paths && b.Keys <= w.paths
    requires forall p :: PagePrimaryKey(w.digest, id, p) == k ==> (p in a <==> p in b) && (p in a ==> a[p] == b[p])
    ensures AgreeAt(PageImage(w.digest, l, id, a), PageImage(w.digest, l, id, b), k)
  {
    var m, n := PageImage(w.digest, l, id, a), PageImage(w.digest, l, id, b);
    if k in m {
      var p :| p in a && PagePrimaryKey(w.digest, id, p) == k;
      PageImageAt(w.digest, l, id, a, w.paths, p);
      PageImageAt(w.digest, l, id, b, w.paths, p);
    }
    if k in n {
      var p :| p in b && PagePrimaryKey(w.digest, id, p) == k;
    }
  }

  /** What the image holds under one key depends only on the rows with that key. */
  lemma ImageLocal(w: World, l: Label, id: int, a: Rows, b: Rows, k: string)
    requires Sound(w) && Fits(w, a) && Fits(w, b)
    requires forall d :: PrimaryKey(id, d) == k ==> (d in a.docs <==> d in b.docs) && (d in a.docs ==> a.docs[d] == b.docs[d])
    requires forall p :: PagePrimaryKey(w.digest, id, p) == k ==> (p in a.pages <==> p in b.pages) && (p in a.pages ==> a.pages[p] == b.pages[p])
    ensures AgreeAt(Image(w.digest, l, id, a), Image(w.digest, l, id, b), k)
  {
    DocImageLocal(l, id, a.docs, b.docs, k);
    PageImageLocal(w, l, id, a.pages, b.pages, k);
  }

  /** Removed keys are not in the image. */
  lemma GoneNotInImage(w: World, l: Label, y: Sync, rows: Rows)
    requires Sound(w) && Fits(w, rows) && y.goneDocs <= w.docIDs && y.gonePages <= w.paths
    requires y.goneDocs !! rows.docs.Keys && y.gonePages !! rows.pages.Keys
    ensures Gone(w, y) !! Image(w.digest, l, y.id, rows).Keys
  {
    forall d, e | d in y.goneDocs && e in rows.docs ensures PrimaryKey(y.id, d) != PrimaryKey(y.id, e) {
      PrimaryKeyInjective(y.id, d, y.id, e);
    }
    forall p, q | p in y.gonePages && q in rows.pages ensures PagePrimaryKey(w.digest, y.id, p) != PagePrimaryKey(w.digest, y.id, q) {
      PageKeyInjective(w.digest, y.id, p, y.id, q);
    }
    FamiliesApart(w.digest, y.id, w.docIDs, w.paths, y.id);
    assert DocKeys(y.id, y.goneDocs) <= DocKeys(y.id, w.docIDs) && DocKeys(y.id, rows.docs.Keys) <= DocKeys(y.id, w.docIDs);
    assert PageKeys(w.digest, y.id, y.gonePages) <= PageKeys(w.digest, y.id, w.paths);
    assert PageKeys(w.digest, y.id, rows.pages.Keys) <= PageKeys(w.digest, y.id, w.paths);
  }

  /** The records of the upserted rows are the image's, and nothing else. */
  lemma RecordsAreImage(w: World, l: Label, y: Sync, rows: Rows)
    requires Sound(w) && Fits(w, rows) && y.docs <= rows.docs.Keys && y.pages <= rows.pages.Keys
    ensures var records := DocRecords(l, y, rows) + PageRecords(w, l, y, rows);
            && records.Keys == Upserted(w, y)
            && forall k :: k in Upserted(w, y) ==> AgreeAt(records, Image(w.digest, l, y.id, rows), k)
  {
    var some := Rows(rows.types, Restrict(rows.docs, y.docs), Restrict(rows.pages, y.pages));
    assert some.docs.Keys == y.docs && some.pages.Keys == y.pages;
    forall k | k in Upserted(w, y) ensures AgreeAt(Image(w.digest, l, y.id, some), Image(w.digest, l, y.id, rows), k) {
      if d :| d in y.docs && PrimaryKey(y.id, d) == k {
        forall e | PrimaryKey(y.id, e) == k ensures e == d {
          PrimaryKeyInjective(y.id, d, y.id, e);
        }
        forall p | p in w.paths && PagePrimaryKey(w.digest, y.id, p) == k ensures false {
          FamiliesMeet(w.digest, y.id, d, y.id, p);
        }
      } else {
        var q :| q in y.pages && PagePrimaryKey(w.digest, y.id, q) == k;
        forall p | p in w.paths && PagePrimaryKey(w.digest, y.id, p) == k ensures p == q {
          PageKeyInjective(w.digest, y.id, p, y.id, q);
        }
        forall d | d in w.docIDs && PrimaryKey(y.id, d) == k ensures false {
          FamiliesMeet(w.digest, y.id, d, y.id, q);
        }
      }
      ImageLocal(w, l, y.id, some, rows, k);
    }
  }

  // ---------------------------------------------------------------- what a step does not disturb

  lemma ReportedOwned(w: World, y: Sync)
    ensures forall k :: k in Reported(w, y) ==> Owns(y.id, k)
  {
    forall d ensures Owns(y.id, PrimaryKey(y.id, d)) {
      OwnsPrimary(y.id, d);
    }
    forall p ensures Owns(y.id, PagePrimaryKey(w.digest, y.id, p)) {
      OwnsPage(w.digest, y.id, p);
    }
  }

  /** A label whose rows and sync stay, and whose records at most go dirty and away, keeps its invariants. */
  lemma KeepLabel(w: World, s: State, t: State, l: Label)
    requires Inv(w, s)
    requires l in t.db.repos ==>
               && l in s.db.repos && t.db.repos[l].id == s.db.repos[l].id
               && RowsAt(t.db, t.db.repos[l].id) == RowsAt(s.db, t.db.repos[l].id)
               && (forall k :: Owns(t.db.repos[l].id, k) ==>
                     && (k in s.dirty ==> k in t.dirty)
                     && (AgreeAt(s.index, t.index, k) || (k in t.dirty && k !in t.index)))
    requires if l in s.syncs then l in t.syncs && t.syncs[l] == s.syncs[l] else l !in t.syncs
    requires forall id :: id in s.owner ==> id in t.owner && t.owner[id] == s.owner[id]
    ensures SyncTraced(w, t, l) && SyncCurrent(w, t, l) && Mirrors(w, t, l)
  {
    assert SyncTraced(w, s, l) && SyncCurrent(w, s, l) && Mirrors(w, s, l);
    if l in s.syncs {
      ReportedOwned(w, s.syncs[l]);
    }
  }

  /** One label's sync changes the index and the dirty set only under keys it reported: the other labels do not notice. */
  lemma OtherLabel(w: World, s: State, t: State, l: Label, m: Label)
    requires Inv(w, s) && l in s.syncs && m != l
    requires t.db == s.db && t.owner == s.owner && t.syncs - {l} == s.syncs - {l}
    requires forall k :: k !in Reported(w, s.syncs[l]) ==> AgreeAt(s.index, t.index, k) && (k in s.dirty <==> k in t.dirty)
    ensures SyncTraced(w, t, m) && SyncCurrent(w, t, m) && Mirrors(w, t, m)
  {
    assert SyncTraced(w, s, l);
    var y := s.syncs[l];
    ReportedOwned(w, y);
    assert m in s.syncs <==> m in s.syncs - {l};
    assert m in t.syncs <==> m in t.syncs - {l};
    assert m in s.syncs ==> (s.syncs - {l})[m] == s.syncs[m] && (t.syncs - {l})[m] == t.syncs[m];
    if m in s.db.repos {
      forall k | Owns(s.db.repos[m].id, k) ensures k !in Reported(w, y) {
        if k in Reported(w, y) {
          OwnsOnce(y.id, s.db.repos[m].id, k);
        }
      }
    }
    KeepLabel(w, s, t, m);
  }

  lemma SyncStep(w: World, s: State, t: State, l: Label)
    requires Inv(w, s) && l in s.syncs
    requires t.db == s.db && t.next == s.next && t.owner == s.owner && t.syncs - {l} == s.syncs - {l}
    requires forall k :: k !in Reported(w, s.syncs[l]) ==> AgreeAt(s.index, t.index, k) && (k in s.dirty <==> k in t.dirty)
    requires Traced(t, t.index) && SyncTraced(w, t, l) && SyncCurrent(w, t, l) && Mirrors(w, t, l)
    ensures Inv(w, t)
  {
    forall m ensures SyncTraced(w, t, m) && SyncCurrent(w, t, m) && Mirrors(w, t, m) {
      if m != l {
        OtherLabel(w, s, t, l, m);
      }
    }
  }

  // ---------------------------------------------------------------- the sync steps

  /** Giving up after a change confined to the reported keys. */
  lemma AbandonKeeps(w: World, s: State, l: Label, index: SearchIndex)
    requires Inv(w, s) && l in s.syncs
    requires forall k :: k !in Reported(w, s.syncs[l]) ==> AgreeAt(s.index, index, k)
    requires Traced(s, index)
    ensures Inv(w, Abandon(w, s.(index := index), l))
  {
    assert SyncTraced(w, s, l) && Mirrors(w, s, l);
    var t := Abandon(w, s.(index := index), l);
    SyncStep(w, s, t, l);
  }

  lemma AdvanceKeeps(w: World, s: State, l: Label, index: SearchIndex, stage: Stage)
    requires Inv(w, s) && l in s.syncs
    requires forall k :: k !in Reported(w, s.syncs[l]) ==> AgreeAt(s.index, index, k)
    requires Traced(s, index) && Traced(s, RecordsOf(stage)) && RecordsOf(stage).Keys <= Upserted(w, s.syncs[l])
    requires SyncCurrent(w, Advance(s.(index := index), l, stage), l)
    ensures Inv(w, Advance(s.(index := index), l, stage))
  {
    AdvanceSyncTraced(w, s, l, index, stage);
    AdvanceMirrors(w, s, l, index, stage);
    SyncStep(w, s, Advance(s.(index := index), l, stage), l);
  }

  lemma AdvanceSyncTraced(w: World, s: State, l: Label, index: SearchIndex, stage: Stage)
    requires Inv(w, s) && l in s.syncs
    requires Traced(s, RecordsOf(stage)) && RecordsOf(stage).Keys <= Upserted(w, s.syncs[l])
    ensures SyncTraced(w, Advance(s.(index := index), l, stage), l)
  {
    assert SyncTraced(w, s, l);
    assert Upserted(w, s.syncs[l].(stage := stage)) == Upserted(w, s.syncs[l]);
  }

  lemma AdvanceMirrors(w: World, s: State, l: Label, index: SearchIndex, stage: Stage)
    requires Inv(w, s) && l in s.syncs
    requires forall k :: k !in Reported(w, s.syncs[l]) ==> AgreeAt(s.index, index, k)
    ensures Mirrors(w, Advance(s.(index := index), l, stage), l)
  {
    assert Mirrors(w, s, l);
    var y := s.syncs[l].(stage := stage);
    assert Upserted(w, y) == Upserted(w, s.syncs[l]) && Gone(w, y) == Gone(w, s.syncs[l]);
  }

  lemma DeleteKeeps(w: World, s: State, l: Label, o: Outcome)
    requires Inv(w, s) && l in s.syncs && s.syncs[l].stage.Fresh?
    ensures Inv(w, ApplyDelete(w, s, l, o))
  {
    assert SyncTraced(w, s, l) && SyncCurrent(w, s, l);
    var gone := Gone(w, s.syncs[l]);
    var index := Tell(s.index, s.index - gone, o);
    if gone == {} {
      assert s.(index := s.index) == s;
      AdvanceKeeps(w, s, l, s.index, Cleared);
    } else if o.Done? {
      AdvanceKeeps(w, s, l, index, Cleared);
    } else {
      AbandonKeeps(w, s, l, index);
    }
  }

  lemma DocRecordsTraced(w: World, s: State, l: Label, y: Sync, rows: Rows)
    requires y.id in s.owner && s.owner[y.id] == l
    ensures Traced(s, DocRecords(l, y, rows)) && DocRecords(l, y, rows).Keys <= Upserted(w, y)
    ensures y.docs == {} ==> DocRecords(l, y, rows) == map[]
  {
    forall d ensures Owns(y.id, PrimaryKey(y.id, d)) {
      OwnsPrimary(y.id, d);
    }
  }

  lemma PageRecordsTraced(w: World, s: State, l: Label, y: Sync, rows: Rows)
    requires y.id in s.owner && s.owner[y.id] == l
    ensures Traced(s, PageRecords(w, l, y, rows)) && PageRecords(w, l, y, rows).Keys <= Upserted(w, y)
    ensures y.pages == {} ==> PageRecords(w, l, y, rows) == map[]
  {
    forall p ensures Owns(y.id, PagePrimaryKey(w.digest, y.id, p)) {
      OwnsPage(w.digest, y.id, p);
    }
  }

  lemma TracedUnion(s: State, a: SearchIndex, b: SearchIndex)
    requires Traced(s, a) && Traced(s, b)
    ensures Traced(s, a + b)
  {
    forall k | k in a + b
      ensures (a + b)[k].repoID in s.owner && RecordOf(s.owner[(a + b)[k].repoID], (a + b)[k].repoID, k, (a + b)[k])
    {
      assert (a + b)[k] == if k in b then b[k] else a[k];
    }
  }

  lemma ReadDocsAdvances(w: World, s: State, l: Label, records: SearchIndex)
    requires Inv(w, s) && l in s.syncs && s.syncs[l].stage.Cleared?
    requires records == DocRecords(l, s.syncs[l], RowsAt(s.db, s.syncs[l].id))
    ensures Inv(w, Advance(s, l, DocsRead(records)))
  {
    assert SyncTraced(w, s, l) && SyncCurrent(w, s, l);
    DocRecordsTraced(w, s, l, s.syncs[l], RowsAt(s.db, s.syncs[l].id));
    var t := Advance(s, l, DocsRead(records));
    assert t.syncs[l] == s.syncs[l].(stage := DocsRead(records));
    assert DocRecords(l, t.syncs[l], RowsAt(s.db, s.syncs[l].id)) == records;
    assert SyncCurrent(w, t, l);
    assert s.(index := s.index) == s;
    AdvanceKeeps(w, s, l, s.index, DocsRead(records));
  }

  lemma ReadDocsKeeps(w: World, s: State, l: Label, ok: bool)
    requires Inv(w, s) && l in s.syncs && s.syncs[l].stage.Cleared?
    ensures Inv(w, ApplyReadDocs(w, s, l, ok))
  {
    assert SyncTraced(w, s, l);
    var y := s.syncs[l];
    if y.docs != {} && !ok {
      assert s.(index := s.index) == s;
      AbandonKeeps(w, s, l, s.index);
    } else {
      DocRecordsTraced(w, s, l, y, RowsAt(s.db, y.id));
      ReadDocsAdvances(w, s, l, DocRecords(l, y, RowsAt(s.db, y.id)));
    }
  }

  lemma ReadPagesCurrent(w: World, s: State, l: Label, records: SearchIndex)
    requires Inv(w, s) && l in s.syncs && s.syncs[l].stage.DocsRead?
    requires records == PageRecords(w, l, s.syncs[l], RowsAt(s.db, s.syncs[l].id))
    ensures SyncCurrent(w, Advance(s, l, AllRead(s.syncs[l].stage.records + records)), l)
  {
    assert SyncTraced(w, s, l) && SyncCurrent(w, s, l);
    var y := s.syncs[l];
    var t := Advance(s, l, AllRead(y.stage.records + records));
    assert t.syncs[l] == y.(stage := AllRead(y.stage.records + records));
    assert PageRecords(w, l, t.syncs[l], RowsAt(s.db, y.id)) == records;
    assert DocRecords(l, t.syncs[l], RowsAt(s.db, y.id)) == DocRecords(l, y, RowsAt(s.db, y.id));
  }

  lemma ReadPagesAdvances(w: World, s: State, l: Label, records: SearchIndex)
    requires Inv(w, s) && l in s.syncs && s.syncs[l].stage.DocsRead?
    requires records == PageRecords(w, l, s.syncs[l], RowsAt(s.db, s.syncs[l].id))
    ensures Inv(w, Advance(s, l, AllRead(s.syncs[l].stage.records + records)))
  {
    ReadPagesCurrent(w, s, l, records);
    assert SyncTraced(w, s, l);
    var y := s.syncs[l];
    PageRecordsTraced(w, s, l, y, RowsAt(s.db, y.id));
    TracedUnion(s, y.stage.records, records);
    assert s.(index := s.index) == s;
    AdvanceKeeps(w, s, l, s.index, AllRead(y.stage.records + records));
  }

  lemma ReadPagesIs(w: World, s: State, l: Label)
    requires l in s.syncs && s.syncs[l].stage.DocsRead?
    ensures var y := s.syncs[l];
            var stage := AllRead(y.stage.records + PageRecords(w, l, y, RowsAt(s.db, y.id)));
            && ApplyReadPages(w, s, l, true) == Advance(s, l, stage)
            && (y.pages == {} ==> ApplyReadPages(w, s, l, false) == Advance(s, l, stage))
  {
    var y := s.syncs[l];
    if y.pages == {} {
      assert PageRecords(w, l, y, RowsAt(s.db, y.id)) == map[];
      assert y.stage.records + map[] == y.stage.records;
    }
  }

  lemma ReadPagesKeeps(w: World, s: State, l: Label, ok: bool)
    requires Inv(w, s) && l in s.syncs && s.syncs[l].stage.DocsRead?
    ensures Inv(w, ApplyReadPages(w, s, l, ok))
  {
    var y := s.syncs[l];
    if y.pages != {} && !ok {
      assert s.(index := s.index) == s;
      AbandonKeeps(w, s, l, s.index);
    } else {
      ReadPagesIs(w, s, l);
      ReadPagesAdvances(w, s, l, PageRecords(w, l, y, RowsAt(s.db, y.id)));
    }
  }

  /** Once the records are in, every reported key agrees with the rows. */
  lemma SyncedAgrees(w: World, s: State, l: Label, k: string)
    requires Inv(w, s) && l in s.syncs && s.syncs[l].stage.AllRead? && l in s.db.repos
    requires Owns(s.db.repos[l].id, k) && (k in Reported(w, s.syncs[l]) || k !in s.dirty)
    ensures AgreeAt(s.index + s.syncs[l].stage.records, ImageOf(w, s, l), k)
    ensures s.syncs[l].stage.records.Keys == Upserted(w, s.syncs[l])
  {
    assert SyncTraced(w, s, l) && SyncCurrent(w, s, l) && Mirrors(w, s, l);
    var y := s.syncs[l];
    var rows := RowsAt(s.db, y.id);
    RecordsAreImage(w, l, y, rows);
    GoneNotInImage(w, l, y, rows);
  }

  lemma FinishMirrors(w: World, s: State, l: Label)
    requires Inv(w, s) && l in s.syncs && s.syncs[l].stage.AllRead?
    ensures Mirrors(w, Finish(w, s.(index := s.index + s.syncs[l].stage.records), l), l)
  {
    var t := Finish(w, s.(index := s.index + s.syncs[l].stage.records), l);
    if l in s.db.repos {
      forall k | Owns(s.db.repos[l].id, k) && k !in t.dirty
        ensures AgreeAt(t.index, ImageOf(w, s, l), k)
      {
        SyncedAgrees(w, s, l, k);
      }
    }
  }

  lemma FinishKeeps(w: World, s: State, l: Label)
    requires Inv(w, s) && l in s.syncs && s.syncs[l].stage.AllRead?
    ensures Inv(w, Finish(w, s.(index := s.index + s.syncs[l].stage.records), l))
  {
    assert SyncTraced(w, s, l);
    FinishMirrors(w, s, l);
    TracedUnion(s, s.index, s.syncs[l].stage.records);
    var t := Finish(w, s.(index := s.index + s.syncs[l].stage.records), l);
    assert Traced(t, t.index);
    SyncStep(w, s, t, l);
  }

  lemma AddFailsKeeps(w: World, s: State, l: Label, o: Outcome)
    requires Inv(w, s) && l in s.syncs && s.syncs[l].stage.AllRead?
    ensures Inv(w, Abandon(w, s.(index := Tell(s.index, s.index + s.syncs[l].stage.records, o)), l))
  {
    assert SyncTraced(w, s, l);
    TracedUnion(s, s.index, s.syncs[l].stage.records);
    var index := Tell(s.index, s.index + s.syncs[l].stage.records, o);
    assert Traced(s, index);
    AbandonKeeps(w, s, l, index);
  }

  lemma IndexKeeps(w: World, s: State, l: Label, o: Outcome)
    requires Inv(w, s) && l in s.syncs && s.syncs[l].stage.AllRead?
    ensures Inv(w, ApplyIndex(w, s, l, o))
  {
    var records := s.syncs[l].stage.records;
    if records == map[] {
      assert s.(index := s.index + records) == s;
      FinishKeeps(w, s, l);
    } else if o.Done? {
      FinishKeeps(w, s, l);
    } else {
      AddFailsKeeps(w, s, l, o);
    }
  }

  // ---------------------------------------------------------------- commits

  /** An unreported key means the same before and after the commit. */
  lemma CommitLocal(w: World, db: Db, next: int, input: ReconcileInput, now: int, k: string)
    requires Sound(w) && Fits(w, RowsAt(db, RepoIDFor(db, LabelOf(input.repo), next)))
    requires KeySet(DocEntries(input.documents)) <= w.docIDs && KeySet(PageEntries(input.pages)) <= w.paths
    requires k !in Reported(w, SyncOf(db, next, input))
    ensures var id, l := RepoIDFor(db, LabelOf(input.repo), next), LabelOf(input.repo);
            AgreeAt(Image(w.digest, l, id, RowsAt(db, id)), Image(w.digest, l, id, ReconciledRows(RowsAt(db, id), input, now)), k)
  {
    var id, l := RepoIDFor(db, LabelOf(input.repo), next), LabelOf(input.repo);
    var rows := RowsAt(db, id);
    var after := ReconciledRows(rows, input, now);
    ReconciledKeys(rows.docs, DocEntries(input.documents), now);
    ReconciledKeys(rows.pages, PageEntries(input.pages), now);
    forall d | PrimaryKey(id, d) == k
      ensures (d in rows.docs <==> d in after.docs) && (d in rows.docs ==> rows.docs[d] == after.docs[d])
    {
      GateLocal(rows.docs, DocEntries(input.documents), now, d);
    }
    forall p | PagePrimaryKey(w.digest, id, p) == k
      ensures (p in rows.pages <==> p in after.pages) && (p in rows.pages ==> rows.pages[p] == after.pages[p])
    {
      GateLocal(rows.pages, PageEntries(input.pages), now, p);
    }
    ImageLocal(w, l, id, rows, after, k);
  }

  /** A key the reconcile reports neither upserted nor removed has the row it had. */
  lemma GateLocal<V>(cur: Table<V>, desired: seq<Entry<V>>, now: int, k: string)
    requires k !in Removed(cur, desired) && k !in Elems(UpsertedKeys(cur, desired))
    ensures k in cur <==> k in Reconciled(cur, desired, now)
    ensures k in cur ==> cur[k] == Reconciled(cur, desired, now)[k]
  {
    ReconciledKeys(cur, desired, now);
    UpsertedKeysIff(cur, desired);
    if k in KeySet(desired) {
      var i :| 0 <= i < |desired| && desired[i].key == k;
      assert Same(cur, desired[i]);
      UntouchedKey(cur, desired, now, k);
    }
  }

  lemma CommitBase(w: World, s: State, input: ReconcileInput, now: int)
    requires Inv(w, s) && Commits(s, input, false) && Known(w, Ingest(input, now, false))
    ensures var t := Ingested(s, input, now);
            && History(t) && Rowed(w, t) && Traced(t, t.index)
            && forall id :: id in s.owner ==> id in t.owner && t.owner[id] == s.owner[id]
  {
    var l := LabelOf(input.repo);
    var id := RepoIDFor(s.db, l, s.next);
    CommitKeepsIntegrity(s.db, s.next, input, now);
    ReconciledKeys(RowsAt(s.db, id).docs, DocEntries(input.documents), now);
    ReconciledKeys(RowsAt(s.db, id).pages, PageEntries(input.pages), now);
  }

  lemma NoRecordsYet(w: World, s: State, k: string)
    requires Inv(w, s) && Owns(s.next, k)
    ensures k !in s.index
  {
    if k in s.index {
      OwnsOnce(s.next, s.index[k].repoID, k);
    }
  }

  lemma CommitImage(w: World, s: State, input: ReconcileInput, now: int)
    requires Commits(s, input, false)
    ensures var l, t := LabelOf(input.repo), Ingested(s, input, now);
            var id := RepoIDFor(s.db, l, s.next);
            && l in t.db.repos && t.db.repos[l].id == id
            && ImageOf(w, t, l) == Image(w.digest, l, id, ReconciledRows(RowsAt(s.db, id), input, now))
            && Pending(w, t, l) == Reported(w, SyncOf(s.db, s.next, input))
  {
    var l, t := LabelOf(input.repo), Ingested(s, input, now);
    assert t.db == Committed(s.db, s.next, input, now) && t.syncs[l] == SyncOf(s.db, s.next, input);
    var id := RepoIDFor(s.db, l, s.next);
    assert RowsAt(t.db, id) == ReconciledRows(RowsAt(s.db, id), input, now);
  }

  /** Before the commit the index holds the repo's image, which is empty for a repo that is new. */
  lemma BeforeCommit(w: World, s: State, l: Label, k: string)
    requires Inv(w, s) && l !in s.syncs && Owns(RepoIDFor(s.db, l, s.next), k) && k !in s.dirty
    ensures var id := RepoIDFor(s.db, l, s.next);
            AgreeAt(s.index, Image(w.digest, l, id, RowsAt(s.db, id)), k)
  {
    if l in s.db.repos {
      assert Mirrors(w, s, l);
    } else {
      NoRecordsYet(w, s, k);
      assert RowsAt(s.db, s.next) == Rows(map[], map[], map[]);
      EmptyImage(w, l, s.next);
    }
  }

  lemma EmptyImage(w: World, l: Label, id: int)
    ensures Image(w.digest, l, id, Rows(map[], map[], map[])) == map[]
  {
    assert PageKeys(w.digest, id, {}) == {} && DocKeys(id, {}) == {};
  }

  /** The committed repo itself: everything its report does not name is mirrored as before. */
  lemma CommitMirrors(w: World, s: State, input: ReconcileInput, now: int)
    requires Inv(w, s) && Commits(s, input, false) && Known(w, Ingest(input, now, false))
    ensures Mirrors(w, Ingested(s, input, now), LabelOf(input.repo))
  {
    var l := LabelOf(input.repo);
    var id := RepoIDFor(s.db, l, s.next);
    var t := Ingested(s, input, now);
    CommitImage(w, s, input, now);
    assert Fits(w, RowsAt(s.db, id));
    forall k | Owns(id, k) && k !in s.dirty && k !in Reported(w, SyncOf(s.db, s.next, input))
      ensures AgreeAt(s.index, ImageOf(w, t, l), k)
    {
      BeforeCommit(w, s, l, k);
      CommitLocal(w, s.db, s.next, input, now, k);
    }
  }

  lemma CommitCurrent(w: World, s: State, input: ReconcileInput, now: int)
    requires Inv(w, s) && Commits(s, input, false) && Known(w, Ingest(input, now, false))
    ensures var t := Ingested(s, input, now);
            SyncTraced(w, t, LabelOf(input.repo)) && SyncCurrent(w, t, LabelOf(input.repo))
  {
    var id := RepoIDFor(s.db, LabelOf(input.repo), s.next);
    var rows := RowsAt(s.db, id);
    var docs, pages := DocEntries(input.documents), PageEntries(input.pages);
    ReconciledKeys(rows.docs, docs, now);
    ReconciledKeys(rows.pages, pages, now);
    UpsertedKeysIff(rows.docs, docs);
    UpsertedKeysIff(rows.pages, pages);
  }

  lemma CommitOthers(w: World, s: State, input: ReconcileInput, now: int, m: Label)
    requires Inv(w, s) && Commits(s, input, false) && Known(w, Ingest(input, now, false)) && m != LabelOf(input.repo)
    ensures var t := Ingested(s, input, now); SyncTraced(w, t, m) && SyncCurrent(w, t, m) && Mirrors(w, t, m)
  {
    CommitBase(w, s, input, now);
    if m in s.db.repos {
      OthersUntouched(s.db, s.next, input, now, m);
    }
    KeepLabel(w, s, Ingested(s, input, now), m);
  }

  lemma CommitKeeps(w: World, s: State, input: ReconcileInput, now: int)
    requires Inv(w, s) && Commits(s, input, false) && Known(w, Ingest(input, now, false))
    ensures Inv(w, Ingested(s, input, now))
  {
    var t := Ingested(s, input, now);
    CommitBase(w, s, input, now);
    CommitMirrors(w, s, input, now);
    CommitCurrent(w, s, input, now);
    forall m ensures SyncTraced(w, t, m) && SyncCurrent(w, t, m) && Mirrors(w, t, m) {
      if m != LabelOf(input.repo) {
        CommitOthers(w, s, input, now, m);
      }
    }
  }

  lemma SerialKeeps(w: World, s: State, n: nat)
    requires Inv(w, s)
    ensures Inv(w, s.(next := s.next + n))
  {
    var t := s.(next := s.next + n);
    forall m ensures SyncTraced(w, t, m) && SyncCurrent(w, t, m) && Mirrors(w, t, m) {
      KeepLabel(w, s, t, m);
    }
  }

  lemma RefusedKeeps(w: World, s: State, input: ReconcileInput, now: int, fault: bool)
    requires Inv(w, s) && !Commits(s, input, fault)
    ensures Inv(w, ApplyIngest(s, input, now, fault))
  {
    var n := if LabelOf(input.repo) in s.syncs then 0 else 1;
    assert ApplyIngest(s, input, now, fault) == s.(next := s.next + n);
    SerialKeeps(w, s, n);
  }

  lemma CommittedKeeps(w: World, s: State, input: ReconcileInput, now: int, fault: bool)
    requires Inv(w, s) && Commits(s, input, fault) && Known(w, Ingest(input, now, false))
    ensures Inv(w, ApplyIngest(s, input, now, fault))
  {
    assert ApplyIngest(s, input, now, fault) == Ingested(s, input, now);
    CommitKeeps(w, s, input, now);
  }

  lemma IngestKeeps(w: World, s: State, input: ReconcileInput, now: int, fault: bool)
    requires Inv(w, s) && Known(w, Ingest(input, now, false))
    ensures Inv(w, ApplyIngest(s, input, now, fault))
  {
    if Commits(s, input, fault) {
      CommittedKeeps(w, s, input, now, fault);
    } else {
      RefusedKeeps(w, s, input, now, fault);
    }
  }

  // ---------------------------------------------------------------- offboarding

  lemma DropKeeps(w: World, s: State, t: State, labels: set<Label>)
    requires Inv(w, s)
    requires t.db.repos == DropRepos(s.db, labels).repos && t.db.rows == DropRepos(s.db, labels).rows
    requires Integrity(t.db, t.next) && t.next == s.next
    requires t.index == s.index && t.dirty == s.dirty && t.owner == s.owner && t.syncs == s.syncs
    ensures Inv(w, t)
  {
    forall m ensures SyncTraced(w, t, m) && SyncCurrent(w, t, m) && Mirrors(w, t, m) {
      KeepLabel(w, s, t, m);
    }
  }

  lemma PurgeKeeps(w: World, s: State, id: int, o: Outcome)
    requires Inv(w, s)
    ensures Inv(w, ApplyPurge(s, id, o))
  {
    var t := ApplyPurge(s, id, o);
    var hit := if o.Lost? then {} else KeysOf(s.index, id);
    forall m ensures SyncTraced(w, t, m) && SyncCurrent(w, t, m) && Mirrors(w, t, m) {
      if m in s.db.repos {
        forall k | Owns(s.db.repos[m].id, k) ensures AgreeAt(s.index, t.index, k) || (k in t.dirty && k !in t.index) {
          if k in hit {
            OwnsOnce(s.db.repos[m].id, id, k);
            assert Owned(s.db, id);
          }
        }
      }
      KeepLabel(w, s, t, m);
    }
  }

  lemma OffboardKeeps(w: World, s: State, h: int)
    requires Inv(w, s) && h in s.offboards
    ensures Inv(w, Apply(w, s, OffboardDelete(h)))
  {
    UninstallKeepsIntegrity(s.db, s.next, s.offboards[h].0);
    DropKeeps(w, s, Apply(w, s, OffboardDelete(h)), LabelsOf(s.db, s.offboards[h].0));
  }

  lemma RemoveKeeps(w: World, s: State, l: Label)
    requires Inv(w, s)
    ensures Inv(w, Apply(w, s, RemoveRepo(l)))
  {
    if l in s.db.repos {
      DropKeepsIntegrity(s.db, s.next, {l});
      DropKeeps(w, s, Apply(w, s, RemoveRepo(l)), {l});
    }
  }

  lemma AddKeeps(w: World, s: State, i: int, row: Installation)
    requires Inv(w, s)
    ensures Inv(w, Apply(w, s, AddInstallation(i, row)))
  {
    var t := Apply(w, s, AddInstallation(i, row));
    SameReposIntegrity(s.db, t.db, s.next, t.next);
    assert DropRepos(s.db, {}).repos == s.db.repos && DropRepos(s.db, {}).rows == s.db.rows;
    DropKeeps(w, s, t, {});
  }

  lemma ListKeeps(w: World, s: State, h: int, i: int)
    requires Inv(w, s)
    ensures Inv(w, Apply(w, s, OffboardList(h, i)))
  {
    assert DropRepos(s.db, {}).repos == s.db.repos && DropRepos(s.db, {}).rows == s.db.rows;
    DropKeeps(w, s, Apply(w, s, OffboardList(h, i)), {});
  }

  // ---------------------------------------------------------------- every run

  lemma StepKeeps(w: World, s: State, e: Event)
    requires Inv(w, s) && Known(w, e)
    ensures Inv(w, Apply(w, s, e))
  {
    match e
    case AddInstallation(i, row) => AddKeeps(w, s, i, row);
    case Ingest(input, now, fault) => IngestKeeps(w, s, input, now, fault);
    case SyncDelete(l, o) => if l in s.syncs && s.syncs[l].stage.Fresh? { DeleteKeeps(w, s, l, o); }
    case SyncReadDocs(l, ok) => if l in s.syncs && s.syncs[l].stage.Cleared? { ReadDocsKeeps(w, s, l, ok); }
    case SyncReadPages(l, ok) => if l in s.syncs && s.syncs[l].stage.DocsRead? { ReadPagesKeeps(w, s, l, ok); }
    case SyncIndex(l, o) => if l in s.syncs && s.syncs[l].stage.AllRead? { IndexKeeps(w, s, l, o); }
    case Crash(l) => if l in s.syncs { assert s.(index := s.index) == s; AbandonKeeps(w, s, l, s.index); }
    case OffboardList(h, i) => ListKeeps(w, s, h, i);
    case OffboardDelete(h) => if h in s.offboards { OffboardKeeps(w, s, h); }
    case RemoveRepo(l) => RemoveKeeps(w, s, l);
    case Purge(id, o) => PurgeKeeps(w, s, id, o);
  }

  lemma {:induction false} RunKeeps(w: World, s: State, events: seq<Event>)
    requires Inv(w, s) && AllKnown(w, events)
    ensures Inv(w, Run(w, s, events))
    decreases |events|
  {
    if events != [] {
      StepKeeps(w, s, events[0]);
      assert forall i :: 0 <= i < |events[1..]| ==> events[1..][i] == events[i + 1];
      RunKeeps(w, Apply(w, s, events[0]), events[1..]);
    }
  }
}
