/** An ingest against "delete everything and insert what HEAD says": where the gated reconcile ends up with the
    same rows, and the only columns on which it does not. */
module Replacement {
  import opened Text
  import opened RepoPath
  import opened Config
  import opened Pages
  import opened PageLaws
  import opened Documents
  import opened Fetch
  import opened Prefilter
  import opened Heads
  import opened Gate
  import opened Tables
  import opened Service

  // ---------------------------------------------------------------- what the builders make

  lemma MappedMadeFrom(lib: Lib, dirs: map<string, string>, b: Blob, d: DocInput)
    requires Dir(b.path) in dirs && DocumentOf(lib, dirs, b) == Ok([d])
    ensures EntryMadeFrom(lib, d)
  {
    assert [d][0] == d;
  }

  /** Every built document's id, hash and frontmatter columns come from its own bytes. */
  lemma DocumentsMadeFrom(lib: Lib, cfg: Config, blobs: seq<Blob>)
    requires DocumentsOf(lib, cfg, blobs).Ok?
    ensures forall i :: 0 <= i < |DocumentsOf(lib, cfg, blobs).value| ==> EntryMadeFrom(lib, DocumentsOf(lib, cfg, blobs).value[i])
  {
    var docs := DocumentsOf(lib, cfg, blobs).value;
    var dirs := TypeByDir(cfg, cfg.types);
    CollectFrom(lib, dirs, blobs);
    forall i | 0 <= i < |docs| ensures EntryMadeFrom(lib, docs[i]) {
      assert docs[i] in docs;
      var b :| b in blobs && b.path == docs[i].path && Dir(b.path) in dirs && DocumentOf(lib, dirs, b) == Ok([docs[i]]);
      MappedMadeFrom(lib, dirs, b, docs[i]);
    }
  }

  function TitleOf(lib: Lib, content: Content, path: string): string {
    var title := lib.title(content);
    if title == "" then lib.fallback(Base(path)) else title
  }

  predicate PageMadeFrom(lib: Lib, path: string, s: Stored<PageRow>) {
    s.hash == lib.hash(s.row.rawMD) && s.row.title == TitleOf(lib, s.row.rawMD, path)
  }

  predicate PagesMadeFrom(lib: Lib, t: Table<PageRow>) {
    forall p :: p in t ==> PageMadeFrom(lib, p, t[p])
  }

  predicate PageEntryMadeFrom(lib: Lib, p: Page) {
    PageMadeFrom(lib, p.path, Stored(p.contentHash, PageEntry(p).row, 0))
  }

  /** So do every built page's hash and title, given its published path. */
  lemma BuiltPagesMadeFrom(lib: Lib, cfg: Config, blobs: seq<Blob>)
    ensures forall i :: 0 <= i < |PagesOf(lib, cfg, blobs)| ==> PageEntryMadeFrom(lib, PagesOf(lib, cfg, blobs)[i])
  {
    if cfg.apiEnabled {
      var docs := DocsPagesOf(lib, cfg, blobs);
      DocsPagesIff(lib, RulesOf(cfg), Claims(RulesOf(cfg), blobs), blobs);
      ExtraPaths(lib, ByPath(blobs), Paths(docs), cfg.additional);
      var extra := ExtraPages(lib, ByPath(blobs), Paths(docs), cfg.additional);
      forall i | 0 <= i < |docs + extra| ensures PageEntryMadeFrom(lib, (docs + extra)[i]) {
        var pg := (docs + extra)[i];
        assert pg in docs || pg in extra;
      }
    }
  }

  // ---------------------------------------------------------------- pages through the gate

  predicate PagesCollisionFree(cur: Table<PageRow>, pages: seq<Page>) {
    forall i :: 0 <= i < |pages| && pages[i].path in cur && cur[pages[i].path].hash == pages[i].contentHash
      ==> cur[pages[i].path].row.rawMD == pages[i].rawMD
  }

  /** A byte-identical file now published from another place or sha: the gate skips it. */
  predicate PageMovedUnchanged(cur: Table<PageRow>, p: Page) {
    Same(cur, PageEntry(p)) && (cur[p.path].row.repoPath != p.repoPath || cur[p.path].row.gitSHA != p.gitSHA)
  }

  /** What the gate leaves of one desired page. */
  predicate PageReplaced(cur: Table<PageRow>, out: Table<PageRow>, p: Page) {
    && p.path in out
    && var s := out[p.path];
    && s.hash == p.contentHash && s.row.rawMD == p.rawMD && s.row.title == p.title
    && (s.row == PageEntry(p).row <==> !PageMovedUnchanged(cur, p))
  }

  lemma GatedPage(lib: Lib, cur: Table<PageRow>, pages: seq<Page>, now: int, i: nat)
    requires DistinctKeys(PageEntries(pages)) && PagesMadeFrom(lib, cur) && PagesCollisionFree(cur, pages) && i < |pages|
    requires PageEntryMadeFrom(lib, pages[i])
    ensures var out := Reconciled(cur, PageEntries(pages), now);
            PageReplaced(cur, out, pages[i]) && PageMadeFrom(lib, pages[i].path, out[pages[i].path])
  {
    var desired := PageEntries(pages);
    assert desired[i] == PageEntry(pages[i]);
    RefinesReplacement(cur, desired, now);
    assert desired[i].key in KeySet(desired);
    if Same(cur, desired[i]) {
      assert PageMadeFrom(lib, pages[i].path, cur[pages[i].path]);
    }
  }

  /** The page half: every published path, its hash, title and bytes are the desired ones; the file it comes
      from and the git sha are too, except exactly where the bytes did not change and they did. */
  lemma GatedPagesEqualReplacement(lib: Lib, cur: Table<PageRow>, pages: seq<Page>, now: int)
    requires DistinctPagePaths(pages) && PagesMadeFrom(lib, cur) && PagesCollisionFree(cur, pages)
    requires forall i :: 0 <= i < |pages| ==> PageEntryMadeFrom(lib, pages[i])
    ensures var out := Reconciled(cur, PageEntries(pages), now);
            && out.Keys == (set i | 0 <= i < |pages| :: pages[i].path)
            && PagesMadeFrom(lib, out)
            && forall i :: 0 <= i < |pages| ==> PageReplaced(cur, out, pages[i])
  {
    var desired := PageEntries(pages);
    assert forall i :: 0 <= i < |pages| ==> desired[i].key == pages[i].path;
    ReconciledKeys(cur, desired, now);
    assert KeySet(desired) == (set i | 0 <= i < |pages| :: pages[i].path);
    forall i | 0 <= i < |pages|
      ensures var out := Reconciled(cur, desired, now); PageReplaced(cur, out, pages[i]) && PageMadeFrom(lib, pages[i].path, out[pages[i].path])
    {
      GatedPage(lib, cur, pages, now, i);
    }
  }

  // ---------------------------------------------------------------- the whole ingest

  /** The rows of one repo before and after, against its desired documents and pages. */
  predicate AllReplaced(lib: Lib, rows: Rows, out: Rows, input: ReconcileInput) {
    && out.docs.Keys == (set i | 0 <= i < |input.documents| :: input.documents[i].docID)
    && out.pages.Keys == (set i | 0 <= i < |input.pages| :: input.pages[i].path)
    && AllMadeFrom(lib, out.docs) && PagesMadeFrom(lib, out.pages)
    && (forall i :: 0 <= i < |input.documents| ==> Replaced(rows.docs, out.docs, input.documents[i]))
    && (forall i :: 0 <= i < |input.pages| ==> PageReplaced(rows.pages, out.pages, input.pages[i]))
  }

  lemma DistinctReplaced(lib: Lib, y: Yaml, load: Content -> Result<Config>, r: Remote, installation: int, l: Label,
                         db: Db, next: int, now: int)
    requires Desired(lib, y, load, r, installation, l).Ok?
    requires var input, rows := Desired(lib, y, load, r, installation, l).value, RowsAt(db, RepoIDFor(db, l, next));
             && AllMadeFrom(lib, rows.docs) && PagesMadeFrom(lib, rows.pages)
             && CollisionFree(rows.docs, input.documents) && PagesCollisionFree(rows.pages, input.pages)
             && DistinctIDs(input.documents) && DistinctPagePaths(input.pages)
    ensures var input, id := Desired(lib, y, load, r, installation, l).value, RepoIDFor(db, l, next);
            AllReplaced(lib, RowsAt(db, id), RowsAt(Committed(db, next, input, now), id), input)
  {
    var input, id := Desired(lib, y, load, r, installation, l).value, RepoIDFor(db, l, next);
    var snap := FetchOf(lib, y, r).value;
    var cfg := load(snap.configYAML).value;
    DocumentsMadeFrom(lib, cfg, snap.blobs);
    BuiltPagesMadeFrom(lib, cfg, snap.blobs);
    GatedEqualsReplacement(lib, RowsAt(db, id).docs, input.documents, now);
    GatedPagesEqualReplacement(lib, RowsAt(db, id).pages, input.pages, now);
  }

  /** No additional_docs entry that would be published is listed twice. */
  predicate EntriesOnce(lib: Lib, cfg: Config, all: seq<Blob>) {
    cfg.apiEnabled ==> DistinctEntries(ByPath(all), Paths(DocsPagesOf(lib, cfg, all)), cfg.additional)
  }

  /** The desired pages of a configured head have distinct paths exactly then. */
  lemma DesiredPathsDistinct(lib: Lib, y: Yaml, load: Content -> Result<Config>, r: Remote, cfg: Config, installation: int, l: Label)
    requires Configured(y, load, r, cfg) && WellPlaced(cfg) && Desired(lib, y, load, r, installation, l).Ok?
    ensures DistinctPagePaths(Desired(lib, y, load, r, installation, l).value.pages) <==> EntriesOnce(lib, cfg, TreeBlobs(r))
  {
    DesiredOf(lib, y, load, r, cfg, installation, l);
    if cfg.apiEnabled {
      PublishedPathsDistinct(lib, cfg, TreeBlobs(r));
    }
  }

  /** One committed ingest of a configured head, with distinct document ids and no additional_docs entry published
      twice, leaves for every document and page exactly the row that replacing everything would, up to the columns
      of files that moved without changing; the keys are exactly the desired ones, and the rows are again made from
      their own bytes, so the next ingest starts from the same premise. */
  lemma IngestReplacesEverything(lib: Lib, y: Yaml, load: Content -> Result<Config>, r: Remote, cfg: Config,
                                 installation: int, l: Label, db: Db, next: int, now: int)
    requires Configured(y, load, r, cfg) && WellPlaced(cfg) && EntriesOnce(lib, cfg, TreeBlobs(r))
    requires Desired(lib, y, load, r, installation, l).Ok?
    requires var input, rows := Desired(lib, y, load, r, installation, l).value, RowsAt(db, RepoIDFor(db, l, next));
             && AllMadeFrom(lib, rows.docs) && PagesMadeFrom(lib, rows.pages)
             && CollisionFree(rows.docs, input.documents) && PagesCollisionFree(rows.pages, input.pages)
             && DistinctIDs(input.documents)
    ensures var input, id := Desired(lib, y, load, r, installation, l).value, RepoIDFor(db, l, next);
            AllReplaced(lib, RowsAt(db, id), RowsAt(Committed(db, next, input, now), id), input)
  {
    DesiredPathsDistinct(lib, y, load, r, cfg, installation, l);
    DistinctReplaced(lib, y, load, r, installation, l, db, next, now);
  }
}
