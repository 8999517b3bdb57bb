/** ingest/service.go: one ingest run as code, and the desired state it computes as a function of the repository. */
module Service {
  import opened Text
  import opened Config
  import opened Pages
  import opened Documents
  import opened Fetch
  import opened Gate
  import opened Tables
  import opened IndexKeys
  import opened Mirror
  import opened SyncSteps
  import FetchLaws
  import Index
  import Store

  // ---------------------------------------------------------------- the desired state

  function ChangelogFile(cfg: Config): string {
    if !cfg.changelogEnabled then "" else cfg.changelogFile
  }

  function ApiFields(cfg: Config): (string, seq<string>) {
    if !cfg.apiEnabled then ("", []) else (cfg.landing, cfg.additional)
  }

  function InputOf(lib: Lib, cfg: Config, snap: Snapshot, docs: seq<DocInput>, installation: int, l: Label): ReconcileInput {
    ReconcileInput(
      RepoInput(installation, l.0, l.1, snap.branch, cfg.docsDir, cfg, snap.head, snap.changelogMD, snap.changelogSHA,
                ChangelogFile(cfg), snap.indexMD, snap.indexSHA, ApiFields(cfg).0, ApiFields(cfg).1),
      DocTypesOf(cfg.types), docs, PagesOf(lib, cfg, snap.blobs))
  }

  /** What one run of this repository wants stored: fetch, load and validate the config, build. */
  function Desired(lib: Lib, y: Yaml, load: Content -> Result<Config>, r: Remote, installation: int, l: Label): Result<ReconcileInput> {
    var snap := FetchOf(lib, y, r);
    if snap.Err? then Err(snap.error)
    else
      var cfg := load(snap.value.configYAML);
      if cfg.Err? then Err(cfg.error)
      else
        var docs := DocumentsOf(lib, cfg.value, snap.value.blobs);
        if docs.Err? then Err(docs.error)
        else Ok(InputOf(lib, cfg.value, snap.value, docs.value, installation, l))
  }

  // ---------------------------------------------------------------- the service, as code

  /** The ids a report names as removed, as index keys: documents first, then pages. */
  lemma KeysOfRemoved(digest: string -> string, id: int, docIDs: seq<string>, paths: seq<string>, keys: seq<string>)
    requires |keys| == |docIDs| + |paths|
    requires forall i :: 0 <= i < |docIDs| ==> keys[i] == PrimaryKey(id, docIDs[i])
    requires forall i :: 0 <= i < |paths| ==> keys[|docIDs| + i] == PagePrimaryKey(digest, id, paths[i])
    ensures Elems(keys) == DocKeys(id, Elems(docIDs)) + PageKeys(digest, id, Elems(paths))
  {
    forall k | k in DocKeys(id, Elems(docIDs)) ensures k in keys {
      var d :| d in docIDs && PrimaryKey(id, d) == k;
      var i :| 0 <= i < |docIDs| && docIDs[i] == d;
      assert keys[i] == k;
    }
    forall k | k in PageKeys(digest, id, Elems(paths)) ensures k in keys {
      var p :| p in paths && PagePrimaryKey(digest, id, p) == k;
      var i :| 0 <= i < |paths| && paths[i] == p;
      assert keys[|docIDs| + i] == k;
    }
    forall k | k in keys ensures k in DocKeys(id, Elems(docIDs)) + PageKeys(digest, id, Elems(paths)) {
      var i :| 0 <= i < |keys| && keys[i] == k;
      if i < |docIDs| {
        assert docIDs[i] in Elems(docIDs);
      } else {
        assert paths[i - |docIDs|] in Elems(paths);
        assert keys[|docIDs| + (i - |docIDs|)] == k;
      }
    }
  }

  /** The head does not resolve, its tree is truncated, .docz.yaml is not in it, or, of a listing as git gives it, a
      file the fetch requests cannot be read. */
  ghost predicate CannotBeFetched(lib: Lib, y: Yaml, r: Remote) {
    || r.failure.Some? || r.truncated || (forall e :: !FileEntry(r.tree, ".docz.yaml", e))
    || (FetchLaws.PlainListing(r.tree) && !FetchLaws.Fetchable(lib, y, r))
  }

  lemma CommittedFits(w: World, s: State, input: ReconcileInput, now: int)
    requires Inv(w, s) && Commits(s, input, false) && Known(w, Ingest(input, now, false))
    ensures Fits(w, RowsAfter(s, input, now))
  {
    CommitBase(w, s, input, now);
  }

  lemma ReadyToSync(w: World, s: State, input: ReconcileInput, now: int, res: ReconcileResult)
    requires Inv(w, s) && Commits(s, input, false) && Known(w, Ingest(input, now, false)) && Reports(res, s.db, s.next, input)
    ensures var y := SyncOf(s.db, s.next, input);
            Index.ReportOf(res, y) && Sound(w) && Fits(w, RowsAt(Committed(s.db, s.next, input, now), y.id))
  {
    Index.ReportIsSync(res, s.db, s.next, input);
    CommittedFits(w, s, input, now);
  }

  lemma PlayedAs(w: World, s: State, input: ReconcileInput, env: Env)
    requires Commits(s, input, false)
    ensures var y, db, t := SyncOf(s.db, s.next, input), Committed(s.db, s.next, input, env.now), Played(w, s, input, env);
            && t.db == db && t.next == s.next + 1
            && t.index == IndexAfter(w, s.index, LabelOf(input.repo), y, RowsAt(db, y.id), env)
  {
    PlayedIs(w, s, input, env);
  }

  lemma Refused(w: World, s: State, input: ReconcileInput, now: int)
    requires LabelOf(input.repo) !in s.syncs
    ensures var t := Apply(w, s, Ingest(input, now, true)); t.db == s.db && t.next == s.next + 1 && t.index == s.index
  {
  }

  class IngestService {
    const store: Store.Store
    const indexer: Index.Client
    const digest: string -> string

    constructor (store: Store.Store, indexer: Index.Client, digest: string -> string)
      ensures this.store == store && this.indexer == indexer && this.digest == digest
    {
      this.store := store;
      this.indexer := indexer;
      this.digest := digest;
    }

    method RemovedKeys(res: ReconcileResult) returns (ids: seq<string>)
      ensures Elems(ids) == DocKeys(res.repoID, Elems(res.deletedDocIDs)) + PageKeys(digest, res.repoID, Elems(res.deletedPagePaths))
      ensures ids == [] <==> res.deletedDocIDs == [] && res.deletedPagePaths == []
    {
      ids := [];
      for i := 0 to |res.deletedDocIDs|
        invariant |ids| == i
        invariant forall j :: 0 <= j < i ==> ids[j] == PrimaryKey(res.repoID, res.deletedDocIDs[j])
      {
        ids := ids + [PrimaryKey(res.repoID, res.deletedDocIDs[i])];
      }
      var n := |ids|;
      for i := 0 to |res.deletedPagePaths|
        invariant |ids| == n + i
        invariant forall j :: 0 <= j < n ==> ids[j] == PrimaryKey(res.repoID, res.deletedDocIDs[j])
        invariant forall j :: 0 <= j < i ==> ids[n + j] == PagePrimaryKey(digest, res.repoID, res.deletedPagePaths[j])
      {
        ids := ids + [PagePrimaryKey(digest, res.repoID, res.deletedPagePaths[i])];
      }
      KeysOfRemoved(digest, res.repoID, res.deletedDocIDs, res.deletedPagePaths, ids);
    }

    method DocRecordList(l: Label, repoID: int, rows: seq<(string, Stored<DocRow>)>) returns (records: seq<IndexDoc>)
      ensures records == Index.DocList(l, repoID, rows)
    {
      records := [];
      for i := 0 to |rows|
        invariant records == Index.DocList(l, repoID, rows[..i])
      {
        assert rows[..i + 1][..i] == rows[..i];
        records := records + [ToIndexDoc(l, repoID, rows[i].0, rows[i].1)];
      }
      assert rows[..|rows|] == rows;
    }

    method PageRecordList(l: Label, repoID: int, rows: seq<(string, Stored<PageRow>)>) returns (records: seq<IndexDoc>)
      ensures records == Index.PageList(digest, l, repoID, rows)
    {
      records := [];
      for i := 0 to |rows|
        invariant records == Index.PageList(digest, l, repoID, rows[..i])
      {
        assert rows[..i + 1][..i] == rows[..i];
        records := records + [ToIndexPage(digest, l, repoID, rows[i].0, rows[i].1)];
      }
      assert rows[..|rows|] == rows;
    }

    method UpsertedDocRecords(l: Label, res: ReconcileResult, env: Env, ghost y: Sync) returns (r: Result<seq<IndexDoc>>)
      requires Index.ReportOf(res, y)
      ensures r.Ok? <==> y.docs == {} || env.docsOk
      ensures r.Ok? ==> Index.AddAll(map[], r.value) == DocRecords(l, y, RowsAt(store.db, y.id))
    {
      var rows := RowsAt(store.db, res.repoID);
      if |res.upsertedDocIDs| == 0 {
        assert Restrict(rows.docs, y.docs) == map[];
        return Ok([]);
      }
      assert res.upsertedDocIDs[0] in Elems(res.upsertedDocIDs);
      if !env.docsOk {
        return Err("fetch upserted docs");
      }
      var found := Index.Select(rows.docs, res.upsertedDocIDs);
      var docs := DocRecordList(l, res.repoID, found);
      Index.DocListIsImage(l, res.repoID, found, Restrict(rows.docs, y.docs));
      return Ok(docs);
    }

    method UpsertedPageRecords(l: Label, res: ReconcileResult, env: Env, ghost w: World, ghost y: Sync) returns (r: Result<seq<IndexDoc>>)
      requires Index.ReportOf(res, y) && w.digest == digest && Sound(w) && Fits(w, RowsAt(store.db, y.id))
      ensures r.Ok? <==> y.pages == {} || env.pagesOk
      ensures r.Ok? ==> Index.AddAll(map[], r.value) == PageRecords(w, l, y, RowsAt(store.db, y.id))
    {
      var rows := RowsAt(store.db, res.repoID);
      if |res.upsertedPagePaths| == 0 {
        assert Restrict(rows.pages, y.pages) == map[];
        return Ok([]);
      }
      assert res.upsertedPagePaths[0] in Elems(res.upsertedPagePaths);
      if !env.pagesOk {
        return Err("fetch upserted pages");
      }
      var found := Index.Select(rows.pages, res.upsertedPagePaths);
      var pages := PageRecordList(l, res.repoID, found);
      Index.PageListIsImage(w, l, res.repoID, found, Restrict(rows.pages, y.pages));
      return Ok(pages);
    }

    /** The records behind the upserted ids and paths, read back from the rows, both sources in one list. */
    method UpsertedIndexRecords(l: Label, res: ReconcileResult, env: Env, ghost w: World, ghost y: Sync) returns (r: Result<seq<IndexDoc>>)
      requires Index.ReportOf(res, y) && w.digest == digest && Sound(w) && Fits(w, RowsAt(store.db, y.id))
      ensures r.Ok? <==> ReadOk(y, env)
      ensures r.Ok? ==> Index.AddAll(map[], r.value) == Records(w, l, y, RowsAt(store.db, y.id))
    {
      var docs := UpsertedDocRecords(l, res, env, y);
      if docs.Err? {
        return docs;
      }
      var pages := UpsertedPageRecords(l, res, env, w, y);
      if pages.Err? {
        return pages;
      }
      Index.AddAllConcat(map[], docs.value, pages.value);
      Index.AddAllMerge(Index.AddAll(map[], docs.value), pages.value);
      return Ok(docs.value + pages.value);
    }

    /** One delete call, one index call: exactly the four sync steps of the machine with these answers. */
    method SyncIndex(l: Label, res: ReconcileResult, env: Env, ghost w: World, ghost y: Sync) returns (ok: bool)
      requires Index.ReportOf(res, y) && w.digest == digest && Sound(w) && Fits(w, RowsAt(store.db, y.id))
      modifies indexer
      ensures indexer.records == IndexAfter(w, old(indexer.records), l, y, RowsAt(store.db, y.id), env)
      ensures ok <==> SyncOk(w, l, y, RowsAt(store.db, y.id), env)
    {
      var ids := RemovedKeys(res);
      assert Elems(ids) == Gone(w, y);
      assert ids == [] <==> Gone(w, y) == {} by {
        assert ids != [] ==> ids[0] in Elems(ids);
      }
      if |ids| > 0 {
        var deleted := indexer.DeleteDocuments(ids, env.delete);
        if !deleted {
          return false;
        }
      }
      assert indexer.records == old(indexer.records) - Gone(w, y) by {
        NothingGone(old(indexer.records), Gone(w, y));
      }
      var records := UpsertedIndexRecords(l, res, env, w, y);
      if records.Err? {
        return false;
      }
      Index.AddAllMerge(map[], records.value);
      if |records.value| == 0 {
        return true;
      }
      ok := indexer.IndexDocuments(records.value, env.add);
    }

    /** The transaction, and after its commit the best-effort sync. */
    method CommitAndSync(input: ReconcileInput, env: Env, ghost w: World, ghost s: State) returns (r: Result<ReconcileResult>)
      requires s.db == store.db && s.next == store.nextRepoID && s.index == indexer.records && LabelOf(input.repo) !in s.syncs
      requires Inv(w, s) && w.digest == digest && Known(w, Ingest(input, env.now, false))
      modifies store, indexer
      ensures r.Err? ==> var t := Apply(w, s, Ingest(input, env.now, true));
                         store.db == t.db && store.nextRepoID == t.next && indexer.records == t.index
      ensures r.Ok? ==> var t := Played(w, s, input, env);
                        && store.db == t.db && store.nextRepoID == t.next && indexer.records == t.index
                        && Commits(s, input, false) && Reports(r.value, s.db, s.next, input)
      ensures env.faultIn < 0 ==> (r.Ok? <==> input.repo.installation in s.db.installations)
    {
      r := store.ReconcileRepo(input, env.now, env.faultIn);
      if r.Err? {
        Refused(w, s, input, env.now);
        return r;
      }
      ReadyToSync(w, s, input, env.now, r.value);
      PlayedAs(w, s, input, env);
      var ok := SyncIndex(LabelOf(input.repo), r.value, env, w, SyncOf(s.db, s.next, input));
    }

    /** One ingest. A fetch, config or build error touches nothing. A failed transaction touches only the
        serial. Otherwise the desired state is committed and the machine's sync is played; a failed sync is
        not an error. `s` is any machine state with this store and index in which the repo has no run. */
    method Run(lib: Lib, yaml: Yaml, load: Content -> Result<Config>, remote: Client, installation: int, l: Label, env: Env,
               ghost w: World, ghost s: State)
      returns (r: Result<ReconcileResult>)
      requires s.db == store.db && s.next == store.nextRepoID && s.index == indexer.records && l !in s.syncs
      requires Inv(w, s) && w.digest == digest
      requires var d := Desired(lib, yaml, load, remote.remote, installation, l);
               d.Ok? ==> Known(w, Ingest(d.value, env.now, false))
      modifies store, indexer
      ensures var d := Desired(lib, yaml, load, remote.remote, installation, l);
              && (d.Err? ==> r == Err(d.error) && store.db == s.db && store.nextRepoID == s.next && indexer.records == s.index)
              && (d.Ok? && r.Err? ==>
                    var t := Apply(w, s, Ingest(d.value, env.now, true));
                    store.db == t.db && store.nextRepoID == t.next && indexer.records == t.index)
              && (d.Ok? && r.Ok? ==>
                    var t := Played(w, s, d.value, env);
                    && store.db == t.db && store.nextRepoID == t.next && indexer.records == t.index
                    && Commits(s, d.value, false) && Reports(r.value, s.db, s.next, d.value))
              && (d.Ok? && env.faultIn < 0 ==> (r.Ok? <==> installation in s.db.installations))
      ensures CannotBeFetched(lib, yaml, remote.remote) ==>
                r.Err? && store.db == s.db && store.nextRepoID == s.next && indexer.records == s.index
    {
      if FetchLaws.PlainListing(remote.remote.tree) {
        FetchLaws.SucceedsIff(lib, yaml, remote.remote);
      }
      var snap := remote.FetchSnapshot(lib, yaml);
      if snap.Err? {
        return Err(snap.error);
      }
      var cfg := load(snap.value.configYAML);
      if cfg.Err? {
        return Err(cfg.error);
      }
      var docTypes := BuildDocTypes(cfg.value);
      var documents := BuildDocuments(lib, cfg.value, snap.value.blobs);
      if documents.Err? {
        return Err(documents.error);
      }
      var (apiLanding, apiDocs) := ApiFields(cfg.value);
      var pages := BuildPages(lib, cfg.value, snap.value.blobs);
      var repo := RepoInput(installation, l.0, l.1, snap.value.branch, cfg.value.docsDir, cfg.value, snap.value.head,
                            snap.value.changelogMD, snap.value.changelogSHA, ChangelogFile(cfg.value),
                            snap.value.indexMD, snap.value.indexSHA, apiLanding, apiDocs);
      var input := ReconcileInput(repo, docTypes, documents.value, pages);
      assert Desired(lib, yaml, load, remote.remote, installation, l) == Ok(input);
      r := CommitAndSync(input, env, w, s);
    }
  }

  lemma NothingGone(m: SearchIndex, gone: set<string>)
    ensures gone == {} ==> m - gone == m
  {
  }
}
