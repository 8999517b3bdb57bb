/** The Postgres rows as values: what each statement and each whole transaction does to them. */
module Tables {
  import opened Text
  import opened Config
  import opened Pages
  import opened Documents
  import opened Gate

  type Label = (string, string)

  /** One repos row; (owner, name) is its key. The api and changelog columns are null when not opted into. */
  datatype Repo = Repo(
    id: int, installation: int, defaultBranch: string, docsDir: string, config: Config,
    lastSyncedSHA: Option<string>,
    changelogMD: Option<string>, changelogSHA: Option<string>, changelogFile: Option<string>,
    indexMD: Option<string>, indexSHA: Option<string>,
    apiLanding: Option<string>, apiAdditional: Option<seq<string>>)

  datatype DocRow = DocRow(
    docType: string, title: string, status: Option<string>, author: Option<string>, created: Option<int>,
    path: string, gitSHA: string, rawMD: Content)

  datatype PageRow = PageRow(repoPath: string, title: string, gitSHA: string, rawMD: Content)

  datatype Installation = Installation(accountLogin: string, accountType: string)

  /** The doc_types, documents and repo_pages rows of one repo id. */
  datatype Rows = Rows(types: map<string, DocTypeInput>, docs: Table<DocRow>, pages: Table<PageRow>)

  datatype Db = Db(
    installations: map<int, Installation>,
    repos: map<Label, Repo>,
    rows: map<int, Rows>,
    deliveries: set<string>)

  datatype RepoInput = RepoInput(
    installation: int, owner: string, name: string, defaultBranch: string, docsDir: string, config: Config,
    lastSyncedSHA: string, changelogMD: string, changelogSHA: string, changelogFile: string,
    indexMD: string, indexSHA: string, apiLanding: string, apiAdditional: seq<string>)

  datatype ReconcileInput = ReconcileInput(
    repo: RepoInput, docTypes: seq<DocTypeInput>, documents: seq<DocInput>, pages: seq<Page>)

  datatype ReconcileResult = ReconcileResult(
    repoID: int,
    docsUpserted: nat, docsDeleted: nat, docsUnchanged: nat, typesUpserted: nat, typesDeleted: nat,
    pagesUpserted: nat, pagesDeleted: nat, pagesUnchanged: nat,
    upsertedDocIDs: seq<string>, deletedDocIDs: seq<string>,
    upsertedPagePaths: seq<string>, deletedPagePaths: seq<string>)

  function TextOrNull(s: string): Option<string> {
    if s == "" then None else Some(s)
  }

  function StringsOrNull(s: seq<string>): Option<seq<string>> {
    if s == [] then None else Some(s)
  }

  function LabelOf(r: RepoInput): Label {
    (r.owner, r.name)
  }

  function RepoRow(id: int, r: RepoInput): Repo {
    Repo(id, r.installation, r.defaultBranch, r.docsDir, r.config, TextOrNull(r.lastSyncedSHA),
         TextOrNull(r.changelogMD), TextOrNull(r.changelogSHA), TextOrNull(r.changelogFile),
         TextOrNull(r.indexMD), TextOrNull(r.indexSHA), TextOrNull(r.apiLanding), StringsOrNull(r.apiAdditional))
  }

  /** UpsertRepo keeps the id of an existing (owner, name) and takes the next serial otherwise. */
  function RepoIDFor(db: Db, lbl: Label, next: int): int {
    if lbl in db.repos then db.repos[lbl].id else next
  }

  function RowsAt(db: Db, id: int): Rows {
    if id in db.rows then db.rows[id] else Rows(map[], map[], map[])
  }

  function SetRows(db: Db, id: int, rows: Rows): Db {
    db.(rows := db.rows[id := rows])
  }

  function SetTypes(db: Db, id: int, types: map<string, DocTypeInput>): Db {
    SetRows(db, id, RowsAt(db, id).(types := types))
  }

  function SetDocs(db: Db, id: int, docs: Table<DocRow>): Db {
    SetRows(db, id, RowsAt(db, id).(docs := docs))
  }

  function SetPages(db: Db, id: int, pages: Table<PageRow>): Db {
    SetRows(db, id, RowsAt(db, id).(pages := pages))
  }

  lemma SetTypesTwice(db: Db, id: int, a: map<string, DocTypeInput>, b: map<string, DocTypeInput>)
    ensures SetTypes(SetTypes(db, id, a), id, b) == SetTypes(db, id, b)
  {
  }

  lemma SetDocsTwice(db: Db, id: int, a: Table<DocRow>, b: Table<DocRow>)
    ensures SetDocs(SetDocs(db, id, a), id, b) == SetDocs(db, id, b)
  {
  }

  lemma SetPagesTwice(db: Db, id: int, a: Table<PageRow>, b: Table<PageRow>)
    ensures SetPages(SetPages(db, id, a), id, b) == SetPages(db, id, b)
  {
  }

  lemma SetSelf(db: Db, id: int)
    requires id in db.rows
    ensures SetTypes(db, id, db.rows[id].types) == db
    ensures SetDocs(db, id, db.rows[id].docs) == db
    ensures SetPages(db, id, db.rows[id].pages) == db
  {
  }

  function DocEntry(d: DocInput): Entry<DocRow> {
    Entry(d.docID, d.contentHash,
          DocRow(d.docType, d.title, TextOrNull(d.status), TextOrNull(d.author), d.created, d.path, d.gitSHA, d.rawMD))
  }

  function PageEntry(p: Page): Entry<PageRow> {
    Entry(p.path, p.contentHash, PageRow(p.repoPath, p.title, p.gitSHA, p.rawMD))
  }

  function DocEntries(docs: seq<DocInput>): seq<Entry<DocRow>> {
    seq(|docs|, i requires 0 <= i < |docs| => DocEntry(docs[i]))
  }

  function PageEntries(pages: seq<Page>): seq<Entry<PageRow>> {
    seq(|pages|, i requires 0 <= i < |pages| => PageEntry(pages[i]))
  }

  /** The doc types have no gate: every desired type is written, every other one deleted. */
  function TypesTable(desired: seq<DocTypeInput>): map<string, DocTypeInput> {
    if desired == [] then map[]
    else TypesTable(desired[..|desired| - 1])[desired[|desired| - 1].name := desired[|desired| - 1]]
  }

  /** The repos row is written; a new repo starts with no rows under it. */
  function RepoUpserted(db: Db, next: int, r: RepoInput): Db {
    var id := RepoIDFor(db, LabelOf(r), next);
    SetRows(db.(repos := db.repos[LabelOf(r) := RepoRow(id, r)]), id, RowsAt(db, id))
  }

  function ReconciledRows(rows: Rows, input: ReconcileInput, now: int): Rows {
    Rows(TypesTable(input.docTypes),
         Reconciled(rows.docs, DocEntries(input.documents), now),
         Reconciled(rows.pages, PageEntries(input.pages), now))
  }

  /** The database after one committed reconcile. */
  function Committed(db: Db, next: int, input: ReconcileInput, now: int): Db {
    var id := RepoIDFor(db, LabelOf(input.repo), next);
    SetRows(db.(repos := db.repos[LabelOf(input.repo) := RepoRow(id, input.repo)]),
            id, ReconciledRows(RowsAt(db, id), input, now))
  }

  predicate ListsSet<T(==)>(list: seq<T>, s: set<T>) {
    multiset(list) == multiset(s)
  }

  /** The document half of a report: exact upserts and counts, and some listing of the removed ids. */
  predicate DocsReported(res: ReconcileResult, cur: Table<DocRow>, desired: seq<Entry<DocRow>>) {
    && res.upsertedDocIDs == UpsertedKeys(cur, desired)
    && ListsSet(res.deletedDocIDs, Removed(cur, desired))
    && res.docsUpserted == |res.upsertedDocIDs| && res.docsDeleted == |res.deletedDocIDs|
    && res.docsUnchanged == Unchanged(cur, desired)
  }

  predicate PagesReported(res: ReconcileResult, cur: Table<PageRow>, desired: seq<Entry<PageRow>>) {
    && res.upsertedPagePaths == UpsertedKeys(cur, desired)
    && ListsSet(res.deletedPagePaths, Removed(cur, desired))
    && res.pagesUpserted == |res.upsertedPagePaths| && res.pagesDeleted == |res.deletedPagePaths|
    && res.pagesUnchanged == Unchanged(cur, desired)
  }

  predicate TypesReported(res: ReconcileResult, cur: map<string, DocTypeInput>, desired: seq<DocTypeInput>) {
    res.typesUpserted == |desired| && res.typesDeleted == |cur.Keys - TypesTable(desired).Keys|
  }

  lemma DocsTwoPasses(was: Db, id: int, desired: seq<Entry<DocRow>>, now: int)
    requires id in was.rows
    ensures var mid := SetDocs(was, id, Upserts(was.rows[id].docs, desired, now));
            SetDocs(mid, id, mid.rows[id].docs - Removed(was.rows[id].docs, desired)) ==
            SetDocs(was, id, Reconciled(was.rows[id].docs, desired, now))
  {
    SetDocsTwice(was, id, Upserts(was.rows[id].docs, desired, now), Reconciled(was.rows[id].docs, desired, now));
  }

  lemma PagesTwoPasses(was: Db, id: int, desired: seq<Entry<PageRow>>, now: int)
    requires id in was.rows
    ensures var mid := SetPages(was, id, Upserts(was.rows[id].pages, desired, now));
            SetPages(mid, id, mid.rows[id].pages - Removed(was.rows[id].pages, desired)) ==
            SetPages(was, id, Reconciled(was.rows[id].pages, desired, now))
  {
    SetPagesTwice(was, id, Upserts(was.rows[id].pages, desired, now), Reconciled(was.rows[id].pages, desired, now));
  }

  lemma TypesTwoPasses(was: Db, id: int, desired: seq<DocTypeInput>, gone: set<string>)
    requires id in was.rows && gone == was.rows[id].types.Keys - TypesTable(desired).Keys
    ensures var mid := SetTypes(was, id, was.rows[id].types + TypesTable(desired));
            SetTypes(mid, id, mid.rows[id].types - gone) == SetTypes(was, id, TypesTable(desired))
  {
    var full := was.rows[id].types + TypesTable(desired);
    assert full - gone == TypesTable(desired);
    SetTypesTwice(was, id, full, TypesTable(desired));
  }

  lemma SetOnRows(db: Db, id: int, rows: Rows, types: map<string, DocTypeInput>, docs: Table<DocRow>, pages: Table<PageRow>)
    ensures SetTypes(SetRows(db, id, rows), id, types) == SetRows(db, id, rows.(types := types))
    ensures SetDocs(SetRows(db, id, rows), id, docs) == SetRows(db, id, rows.(docs := docs))
    ensures SetPages(SetRows(db, id, rows), id, pages) == SetRows(db, id, rows.(pages := pages))
  {
  }

  /** The repo upsert and the three reconciles, one after the other, are the committed database. */
  lemma CommittedInSteps(db: Db, next: int, input: ReconcileInput, now: int)
    ensures var id := RepoIDFor(db, LabelOf(input.repo), next);
            var rows, out := RowsAt(db, id), ReconciledRows(RowsAt(db, id), input, now);
            var d0 := RepoUpserted(db, next, input.repo);
            var d1 := SetTypes(d0, id, out.types);
            var d2 := SetDocs(d1, id, out.docs);
            && id in d0.rows && d0.rows[id] == rows
            && id in d1.rows && d1.rows[id].docs == rows.docs
            && id in d2.rows && d2.rows[id].pages == rows.pages
            && SetPages(d2, id, out.pages) == Committed(db, next, input, now)
  {
    var id := RepoIDFor(db, LabelOf(input.repo), next);
    var rows, out := RowsAt(db, id), ReconciledRows(RowsAt(db, id), input, now);
    var base := db.(repos := db.repos[LabelOf(input.repo) := RepoRow(id, input.repo)]);
    SetOnRows(base, id, rows, out.types, out.docs, out.pages);
    SetOnRows(base, id, rows.(types := out.types), out.types, out.docs, out.pages);
    SetOnRows(base, id, rows.(types := out.types, docs := out.docs), out.types, out.docs, out.pages);
  }

  /** What a committed reconcile reports. The two deleted lists come in no particular order. */
  predicate Reports(res: ReconcileResult, db: Db, next: int, input: ReconcileInput) {
    var id := RepoIDFor(db, LabelOf(input.repo), next);
    && res.repoID == id
    && TypesReported(res, RowsAt(db, id).types, input.docTypes)
    && DocsReported(res, RowsAt(db, id).docs, DocEntries(input.documents))
    && PagesReported(res, RowsAt(db, id).pages, PageEntries(input.pages))
  }

  predicate Owned(db: Db, id: int) {
    exists l :: l in db.repos && db.repos[l].id == id
  }

  /** ON DELETE CASCADE from a set of repos. */
  function DropRepos(db: Db, labels: set<Label>): Db {
    var ids := set l | l in labels && l in db.repos :: db.repos[l].id;
    db.(repos := db.repos - labels, rows := db.rows - ids)
  }

  function LabelsOf(db: Db, installation: int): set<Label> {
    set l | l in db.repos && db.repos[l].installation == installation
  }

  /** DeleteInstallation, cascading to its repos and their rows. */
  function Uninstalled(db: Db, installation: int): Db {
    DropRepos(db, LabelsOf(db, installation)).(installations := db.installations - {installation})
  }

  predicate RowOfInstallation(db: Db, installation: int, id: int) {
    exists l :: l in db.repos && db.repos[l].installation == installation && db.repos[l].id == id
  }

  /** db is `was` without this installation, its repos and their rows; everything else is as it was, row for row. */
  ghost predicate OnlyWithout(was: Db, db: Db, installation: int) {
    && installation !in db.installations
    && (forall i :: i != installation ==> (i in db.installations <==> i in was.installations))
    && (forall i :: i in db.installations ==> db.installations[i] == was.installations[i])
    && (forall l :: l in db.repos <==> l in was.repos && was.repos[l].installation != installation)
    && (forall l :: l in db.repos ==> db.repos[l] == was.repos[l])
    && (forall id :: id in db.rows <==> id in was.rows && !RowOfInstallation(was, installation, id))
    && (forall id :: id in db.rows ==> db.rows[id] == was.rows[id])
    && db.deliveries == was.deliveries
  }

  lemma UninstalledIs(db: Db, installation: int)
    ensures OnlyWithout(db, Uninstalled(db, installation), installation)
  {
    var ids := set l | l in LabelsOf(db, installation) && l in db.repos :: db.repos[l].id;
    forall id ensures id in ids <==> RowOfInstallation(db, installation, id) {
      if l :| l in db.repos && db.repos[l].installation == installation && db.repos[l].id == id {
        assert l in LabelsOf(db, installation);
      }
    }
  }

  /** db is `was` without this repo and the rows under its id. */
  ghost predicate OnlyWithoutRepo(was: Db, db: Db, key: Label) {
    && db.installations == was.installations && db.deliveries == was.deliveries
    && (forall l :: l in db.repos <==> l in was.repos && l != key)
    && (forall l :: l in db.repos ==> db.repos[l] == was.repos[l])
    && (forall id :: id in db.rows <==> id in was.rows && !(key in was.repos && was.repos[key].id == id))
    && (forall id :: id in db.rows ==> db.rows[id] == was.rows[id])
  }

  /** Foreign keys and unique keys: every repo's installation exists, its id is below the serial and no
      other repo's, and the rows under an id are there exactly while some repo has that id. */
  predicate Integrity(db: Db, next: int) {
    && (forall l :: l in db.repos ==> db.repos[l].installation in db.installations)
    && (forall l :: l in db.repos ==> db.repos[l].id < next && db.repos[l].id in db.rows)
    && (forall k, l :: k in db.repos && l in db.repos && db.repos[k].id == db.repos[l].id ==> k == l)
    && (forall id :: id in db.rows ==> Owned(db, id))
  }

  lemma CommitKeepsIntegrity(db: Db, next: int, input: ReconcileInput, now: int)
    requires Integrity(db, next) && input.repo.installation in db.installations
    ensures Integrity(Committed(db, next, input, now), next + 1)
  {
    var after := Committed(db, next, input, now);
    var key := LabelOf(input.repo);
    assert key in after.repos && after.repos[key].id == RepoIDFor(db, key, next);
    forall id | id in after.rows ensures Owned(after, id) {
      if id in db.rows {
        var l :| l in db.repos && db.repos[l].id == id;
        assert l in after.repos && after.repos[l].id == id;
      }
    }
  }

  /** Neither installations added nor serials used up break it. */
  lemma SameReposIntegrity(a: Db, b: Db, next: int, later: int)
    requires Integrity(a, next) && b.repos == a.repos && b.rows == a.rows && a.installations.Keys <= b.installations.Keys && next <= later
    ensures Integrity(b, later)
  {
    forall id | id in b.rows ensures Owned(b, id) {
      assert Owned(a, id);
    }
  }

  lemma DropKeepsIntegrity(db: Db, next: int, labels: set<Label>)
    requires Integrity(db, next)
    ensures Integrity(DropRepos(db, labels), next)
  {
    var after := DropRepos(db, labels);
    forall id | id in after.rows ensures Owned(after, id) {
      var l :| l in db.repos && db.repos[l].id == id;
      assert l in after.repos;
    }
  }

  lemma UninstallKeepsIntegrity(db: Db, next: int, installation: int)
    requires Integrity(db, next)
    ensures Integrity(Uninstalled(db, installation), next)
    ensures forall l :: l in Uninstalled(db, installation).repos ==> Uninstalled(db, installation).repos[l].installation != installation
  {
    var dropped := DropRepos(db, LabelsOf(db, installation));
    DropKeepsIntegrity(db, next, LabelsOf(db, installation));
    var after := Uninstalled(db, installation);
    forall id | id in after.rows ensures Owned(after, id) {
      assert Owned(dropped, id);
    }
  }

  // ---------------------------------------------------------------- the gate over documents

  /** A row made from its own bytes: hash, id and the frontmatter columns. */
  predicate MadeFrom(lib: Lib, id: string, s: Stored<DocRow>) {
    && s.hash == lib.hash(s.row.rawMD)
    && var parsed := lib.frontmatter(s.row.rawMD);
       && parsed.Fields?
       && parsed.fm.id == id && s.row.title == parsed.fm.title
       && s.row.status == TextOrNull(parsed.fm.status) && s.row.author == TextOrNull(parsed.fm.author)
       && s.row.created == DateOrNull(lib, parsed.fm.created)
  }

  predicate AllMadeFrom(lib: Lib, t: Table<DocRow>) {
    forall id :: id in t ==> MadeFrom(lib, id, t[id])
  }

  predicate EntryMadeFrom(lib: Lib, d: DocInput) {
    MadeFrom(lib, d.docID, Stored(d.contentHash, DocEntry(d).row, 0))
  }

  /** No two different bodies among the current rows and the desired documents share a hash. */
  predicate CollisionFree(cur: Table<DocRow>, docs: seq<DocInput>) {
    forall i :: 0 <= i < |docs| && docs[i].docID in cur && cur[docs[i].docID].hash == docs[i].contentHash
      ==> cur[docs[i].docID].row.rawMD == docs[i].rawMD
  }

  /** The columns the bytes determine. */
  predicate SameContent(a: DocRow, b: DocRow) {
    a.title == b.title && a.status == b.status && a.author == b.author && a.created == b.created && a.rawMD == b.rawMD
  }

  predicate DistinctIDs(docs: seq<DocInput>) {
    forall i, j :: 0 <= i < j < |docs| ==> docs[i].docID != docs[j].docID
  }

  /** A byte-identical file under a new type, path or git sha: the gate skips it. */
  predicate MovedUnchanged(cur: Table<DocRow>, d: DocInput) {
    Same(cur, DocEntry(d))
    && (cur[d.docID].row.docType != d.docType || cur[d.docID].row.path != d.path || cur[d.docID].row.gitSHA != d.gitSHA)
  }

  lemma KeptDocument(lib: Lib, cur: Table<DocRow>, d: DocInput, now: int)
    requires AllMadeFrom(lib, cur) && CollisionFree(cur, [d]) && EntryMadeFrom(lib, d)
    ensures var s := Kept(cur, DocEntry(d), now);
            && s.hash == d.contentHash && SameContent(s.row, DocEntry(d).row) && MadeFrom(lib, d.docID, s)
            && (s.row == DocEntry(d).row <==> !MovedUnchanged(cur, d))
  {
    if Same(cur, DocEntry(d)) {
      assert [d][0].docID in cur && cur[[d][0].docID].row.rawMD == d.rawMD;
      assert MadeFrom(lib, d.docID, cur[d.docID]);
    }
  }

  /** What the gate leaves of one desired document. */
  predicate Replaced(cur: Table<DocRow>, out: Table<DocRow>, d: DocInput) {
    && d.docID in out
    && var s := out[d.docID];
    && s.hash == d.contentHash && SameContent(s.row, DocEntry(d).row)
    && (s.row == DocEntry(d).row <==> !MovedUnchanged(cur, d))
  }

  lemma GatedDocument(lib: Lib, cur: Table<DocRow>, docs: seq<DocInput>, now: int, i: nat)
    requires DistinctKeys(DocEntries(docs)) && AllMadeFrom(lib, cur) && CollisionFree(cur, docs) && i < |docs|
    requires EntryMadeFrom(lib, docs[i])
    ensures var out := Reconciled(cur, DocEntries(docs), now);
            Replaced(cur, out, docs[i]) && MadeFrom(lib, docs[i].docID, out[docs[i].docID])
  {
    var desired := DocEntries(docs);
    assert desired[i] == DocEntry(docs[i]);
    RefinesReplacement(cur, desired, now);
    assert desired[i].key in KeySet(desired);
    assert [docs[i]][0] == docs[i];
    KeptDocument(lib, cur, docs[i], now);
  }

  /** The gated reconcile of documents equals replacing every row, on every column the bytes determine.
      The other columns (type, path, git sha) are the desired ones too, except exactly where the bytes did
      not change and the file moved: there they keep the old values. */
  lemma GatedEqualsReplacement(lib: Lib, cur: Table<DocRow>, docs: seq<DocInput>, now: int)
    requires DistinctIDs(docs) && AllMadeFrom(lib, cur) && CollisionFree(cur, docs)
    requires forall i :: 0 <= i < |docs| ==> EntryMadeFrom(lib, docs[i])
    ensures var out := Reconciled(cur, DocEntries(docs), now);
            && out.Keys == (set i | 0 <= i < |docs| :: docs[i].docID)
            && AllMadeFrom(lib, out)
            && forall i :: 0 <= i < |docs| ==> Replaced(cur, out, docs[i])
  {
    var desired := DocEntries(docs);
    assert forall i :: 0 <= i < |docs| ==> desired[i].key == docs[i].docID;
    ReconciledKeys(cur, desired, now);
    assert KeySet(desired) == (set i | 0 <= i < |docs| :: docs[i].docID);
    forall i | 0 <= i < |docs|
      ensures var out := Reconciled(cur, desired, now); Replaced(cur, out, docs[i]) && MadeFrom(lib, docs[i].docID, out[docs[i].docID])
    {
      GatedDocument(lib, cur, docs, now, i);
    }
  }

  /** Other repos, their rows, the installations and the deliveries are not touched by a reconcile. */
  lemma OthersUntouched(db: Db, next: int, input: ReconcileInput, now: int, l: Label)
    requires Integrity(db, next) && l in db.repos && l != LabelOf(input.repo)
    ensures var after := Committed(db, next, input, now);
            && l in after.repos && after.repos[l] == db.repos[l] && RowsAt(after, db.repos[l].id) == RowsAt(db, db.repos[l].id)
            && after.installations == db.installations && after.deliveries == db.deliveries
  {
  }
}
