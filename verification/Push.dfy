/** webhook/events.go: which pushes trigger an ingest, and why a skipped one leaves nothing stale. */
module Push {
  import opened Text
  import opened Seqs
  import opened RepoPath
  import opened Config
  import opened Pages
  import opened Documents
  import opened Fetch
  import opened Prefilter
  import opened Heads
  import opened Probe
  import opened Gate
  import opened Tables
  import opened Service

  datatype Commit = Commit(added: seq<string>, modified: seq<string>, removed: seq<string>)

  datatype PushEvent = PushEvent(ref: string, defaultBranch: string, commits: seq<Commit>)

  predicate Touches(c: Commit, p: string) {
    p in c.added || p in c.modified || p in c.removed
  }

  function TextOf(t: Option<string>): string {
    if t.Some? then t.value else ""
  }

  function NonEmpty(files: seq<string>): seq<string> {
    if files == [] then []
    else NonEmpty(files[..|files| - 1]) + if files[|files| - 1] != "" then [files[|files| - 1]] else []
  }

  /** The exact paths a repo row serves from outside docs_dir. */
  function WatchedFiles(repo: Repo): seq<string> {
    NonEmpty([TextOf(repo.changelogFile), TextOf(repo.apiLanding)]) + if repo.apiAdditional.Some? then repo.apiAdditional.value else []
  }

  lemma WatchedAre(repo: Repo)
    ensures forall p :: p in WatchedFiles(repo) <==>
              || (p != "" && (repo.changelogFile == Some(p) || repo.apiLanding == Some(p)))
              || (repo.apiAdditional.Some? && p in repo.apiAdditional.value)
  {
    var c, a := TextOf(repo.changelogFile), TextOf(repo.apiLanding);
    assert [c, a][..1] == [c] && [c][..0] == [];
    assert NonEmpty([c, a]) == NonEmpty([c]) + if a != "" then [a] else [];
    assert NonEmpty([c]) == NonEmpty([]) + if c != "" then [c] else [];
  }

  method CollectWatchedFiles(repo: Repo) returns (files: seq<string>)
    ensures files == WatchedFiles(repo)
    ensures forall p :: p in files <==>
              || (p != "" && (repo.changelogFile == Some(p) || repo.apiLanding == Some(p)))
              || (repo.apiAdditional.Some? && p in repo.apiAdditional.value)
  {
    WatchedAre(repo);
    files := [];
    var columns := [TextOf(repo.changelogFile), TextOf(repo.apiLanding)];
    for i := 0 to |columns|
      invariant files == NonEmpty(columns[..i])
    {
      assert columns[..i + 1][..i] == columns[..i];
      if columns[i] != "" {
        files := files + [columns[i]];
      }
    }
    assert columns[..|columns|] == columns;
    files := files + if repo.apiAdditional.Some? then repo.apiAdditional.value else [];
  }

  predicate Relevant(docsDir: string, watched: seq<string>, p: string) {
    p == CONFIG_FILE || HasPrefix(p, docsDir + "/") || p in watched
  }

  ghost predicate ShouldIngest(ev: PushEvent, docsDir: string, watched: seq<string>) {
    && ev.ref == "refs/heads/" + ev.defaultBranch
    && exists c, p :: c in ev.commits && Touches(c, p) && Relevant(docsDir, watched, p)
  }

  /** One of a commit's three lists names a relevant path. */
  method AnyRelevant(paths: seq<string>, docsDir: string, watched: seq<string>) returns (found: bool)
    ensures found <==> exists p :: p in paths && Relevant(docsDir, watched, p)
  {
    for i := 0 to |paths|
      invariant forall p :: p in paths[..i] ==> !Relevant(docsDir, watched, p)
    {
      if Relevant(docsDir, watched, paths[i]) {
        assert paths[i] in paths;
        return true;
      }
    }
    assert paths[..|paths|] == paths;
    return false;
  }

  /** One of the commit's lists names p, and p is the config, below the stored docs_dir or a watched file. */
  predicate Triggers(c: Commit, p: string, docsDir: string, watched: seq<string>) {
    (p in c.added || p in c.modified || p in c.removed) && (p == ".docz.yaml" || docsDir + "/" <= p || p in watched)
  }

  lemma TriggersIff(ev: PushEvent, docsDir: string, watched: seq<string>)
    ensures ShouldIngest(ev, docsDir, watched) <==>
              && ev.ref == "refs/heads/" + ev.defaultBranch
              && exists c, p :: c in ev.commits && Triggers(c, p, docsDir, watched)
  {
    if c, p :| c in ev.commits && Triggers(c, p, docsDir, watched) {
      assert Touches(c, p) && Relevant(docsDir, watched, p);
    }
    if c, p :| c in ev.commits && Touches(c, p) && Relevant(docsDir, watched, p) {
      assert Triggers(c, p, docsDir, watched);
    }
  }

  method CheckShouldIngest(ev: PushEvent, docsDir: string, watched: seq<string>) returns (r: bool)
    ensures r <==> ShouldIngest(ev, docsDir, watched)
    ensures r <==>
              && ev.ref == "refs/heads/" + ev.defaultBranch
              && exists c, p :: c in ev.commits && Triggers(c, p, docsDir, watched)
  {
    TriggersIff(ev, docsDir, watched);
    if ev.ref != "refs/heads/" + ev.defaultBranch {
      return false;
    }
    for i := 0 to |ev.commits|
      invariant forall c, p :: c in ev.commits[..i] && Touches(c, p) ==> !Relevant(docsDir, watched, p)
    {
      var c := ev.commits[i];
      var inAdded := AnyRelevant(c.added, docsDir, watched);
      var inModified := AnyRelevant(c.modified, docsDir, watched);
      var inRemoved := AnyRelevant(c.removed, docsDir, watched);
      if inAdded || inModified || inRemoved {
        assert c in ev.commits;
        ghost var p :| Touches(c, p) && Relevant(docsDir, watched, p);
        return true;
      }
    }
    assert ev.commits[..|ev.commits|] == ev.commits;
    return false;
  }

  // ---------------------------------------------------------------- what commits change

  /** A commit names every path whose blob it changes. */
  ghost predicate Names(c: Commit, a: seq<Blob>, b: seq<Blob>) {
    forall p :: At(a, p) != At(b, p) ==> Touches(c, p)
  }

  /** The trees before, between and after the commits. */
  ghost predicate Chain(commits: seq<Commit>, trees: seq<seq<Blob>>) {
    && |trees| == |commits| + 1
    && forall i :: 0 <= i < |commits| ==> Names(commits[i], trees[i], trees[i + 1])
  }

  /** A path whose blob differs after the push is named by one of its commits. */
  lemma {:induction false} DiffersOnlyWhereTouched(commits: seq<Commit>, trees: seq<seq<Blob>>, p: string)
    requires Chain(commits, trees)
    ensures At(trees[0], p) != At(trees[|commits|], p) ==> exists c :: c in commits && Touches(c, p)
  {
    if commits != [] {
      var n := |commits| - 1;
      DiffersOnlyWhereTouched(commits[..n], trees[..n + 1], p);
      assert Names(commits[n], trees[n], trees[n + 1]);
      assert commits[n] in commits && forall c :: c in commits[..n] ==> c in commits;
    }
  }

  predicate OnDefaultBranch(ev: PushEvent) {
    ev.ref == "refs/heads/" + ev.defaultBranch
  }

  /** A push to the default branch whose listed commits name every path that differs between the head before and
      the head after; any other push leaves the branch alone. */
  ghost predicate Pushed(ev: PushEvent, before: seq<Blob>, after: seq<Blob>) {
    if OnDefaultBranch(ev) then forall p :: At(before, p) != At(after, p) ==> exists c :: c in ev.commits && Touches(c, p)
    else after == before
  }

  /** A fast-forward is such a push, whatever its intermediate trees. */
  lemma FastForwardPushes(ev: PushEvent, trees: seq<seq<Blob>>)
    requires Chain(ev.commits, trees) && OnDefaultBranch(ev)
    ensures Pushed(ev, trees[0], trees[|ev.commits|])
  {
    forall p | At(trees[0], p) != At(trees[|ev.commits|], p) ensures exists c :: c in ev.commits && Touches(c, p) {
      DiffersOnlyWhereTouched(ev.commits, trees, p);
    }
  }

  lemma SkippedKeeps(ev: PushEvent, before: seq<Blob>, after: seq<Blob>, docsDir: string, watched: seq<string>, p: string)
    requires Pushed(ev, before, after) && !ShouldIngest(ev, docsDir, watched) && Relevant(docsDir, watched, p)
    ensures At(before, p) == At(after, p)
  {
  }

  // ---------------------------------------------------------------- what the pipeline reads

  function PathOrder(less: (string, string) -> bool): (Blob, Blob) -> bool {
    (a: Blob, b: Blob) => less(a.path, b.path)
  }

  function Under(docsDir: string): Blob -> bool {
    (b: Blob) => UnderDir(b.path, docsDir)
  }

  /** Two trees in the same path order that agree under docs_dir list the same blobs there, in the same order. */
  lemma SameUnder(less: (string, string) -> bool, a: seq<Blob>, b: seq<Blob>, docsDir: string)
    requires Asymmetric(less) && SortedBy(PathOrder(less), a) && SortedBy(PathOrder(less), b)
    requires DistinctPaths(a) && DistinctPaths(b)
    requires forall p :: UnderDir(p, docsDir) ==> At(a, p) == At(b, p)
    ensures Filter(Under(docsDir), a) == Filter(Under(docsDir), b)
  {
    var x, y := Filter(Under(docsDir), a), Filter(Under(docsDir), b);
    FilterIn(Under(docsDir), a);
    FilterIn(Under(docsDir), b);
    forall blob ensures blob in x <==> blob in y {
      AtIs(a, blob.path);
      AtIs(b, blob.path);
      assert UnderDir(blob.path, docsDir) ==> At(a, blob.path) == At(b, blob.path);
    }
    FilterSorted(PathOrder(less), Under(docsDir), a);
    FilterSorted(PathOrder(less), Under(docsDir), b);
    assert Asymmetric(PathOrder(less));
    SortedUnique(PathOrder(less), x, y);
  }

  /** A filter that only lets blobs under docs_dir through sees the same in both trees. */
  lemma SameWithin(a: seq<Blob>, b: seq<Blob>, docsDir: string, keep: Blob -> bool)
    requires Filter(Under(docsDir), a) == Filter(Under(docsDir), b)
    requires forall x :: keep(x) ==> UnderDir(x.path, docsDir)
    ensures Filter(keep, a) == Filter(keep, b)
  {
    FilterFilter(keep, Under(docsDir), keep, a);
    FilterFilter(keep, Under(docsDir), keep, b);
  }

  /** The documents come from blobs directly in type directories, all of them under docs_dir. */
  lemma SameDocuments(lib: Lib, cfg: Config, a: seq<Blob>, b: seq<Blob>)
    requires TypesInside(cfg) && GitTree(a) && GitTree(b)
    requires Filter(Under(CleanRepoDir(cfg.docsDir)), a) == Filter(Under(CleanRepoDir(cfg.docsDir)), b)
    ensures DocumentsOf(lib, cfg, KeptBlobs(lib, cfg, a)) == DocumentsOf(lib, cfg, KeptBlobs(lib, cfg, b))
  {
    var d, dirs := CleanRepoDir(cfg.docsDir), TypeByDir(cfg, cfg.types);
    var keep := KeepBlob(lib.isDocz, DocsDirHint(cfg.docsDir), cfg.apiEnabled);
    var inType := (x: Blob) => Dir(x.path) in dirs && UnderDir(x.path, d);
    var both := (x: Blob) => inType(x) && keep(x);
    FilterIn(keep, a);
    FilterIn(keep, b);
    forall x | (x in a || x in b) && Dir(x.path) in dirs ensures inType(x) {
      DocumentUnderTypeDir(cfg, x.path);
    }
    CollectFilter(lib, dirs, inType, Filter(keep, a));
    CollectFilter(lib, dirs, inType, Filter(keep, b));
    FilterFilter(inType, keep, both, a);
    FilterFilter(inType, keep, both, b);
    SameWithin(a, b, d, both);
  }

  lemma SamePages(lib: Lib, cfg: Config, a: seq<Blob>, b: seq<Blob>)
    requires GitTree(a) && GitTree(b)
    requires Filter(Under(CleanRepoDir(cfg.docsDir)), a) == Filter(Under(CleanRepoDir(cfg.docsDir)), b)
    requires cfg.apiEnabled ==> forall e :: e in cfg.additional ==> At(a, e) == At(b, e)
    ensures PagesOf(lib, cfg, a) == PagesOf(lib, cfg, b)
  {
    if cfg.apiEnabled {
      SameWithin(a, b, CleanRepoDir(cfg.docsDir), Candidate(CleanRepoDir(cfg.docsDir)));
      PagesLocal(lib, cfg, a, b);
    }
  }

  /** Two heads whose trees agree on everything the config serves want the same state stored. */
  lemma SameDesired(lib: Lib, y: Yaml, load: Content -> Result<Config>, a: Remote, b: Remote, cfg: Config, installation: int, l: Label)
    requires Configured(y, load, a, cfg) && Configured(y, load, b, cfg) && WellPlaced(cfg) && a.branch == b.branch
    requires Filter(Under(CleanRepoDir(cfg.docsDir)), TreeBlobs(a)) == Filter(Under(CleanRepoDir(cfg.docsDir)), TreeBlobs(b))
    requires cfg.changelogEnabled ==> At(TreeBlobs(a), cfg.changelogFile) == At(TreeBlobs(b), cfg.changelogFile)
    requires At(TreeBlobs(a), LandingFile(cfg)) == At(TreeBlobs(b), LandingFile(cfg))
    requires cfg.apiEnabled ==> forall e :: e in cfg.additional ==> At(TreeBlobs(a), e) == At(TreeBlobs(b), e)
    ensures Desired(lib, y, load, b, installation, l) == WithHead(Desired(lib, y, load, a, installation, l), b.head)
  {
    DesiredOf(lib, y, load, a, cfg, installation, l);
    DesiredOf(lib, y, load, b, cfg, installation, l);
    SameDocuments(lib, cfg, TreeBlobs(a), TreeBlobs(b));
    SamePages(lib, cfg, TreeBlobs(a), TreeBlobs(b));
  }

  // ---------------------------------------------------------------- a skipped push leaves nothing stale

  /** The row's columns are the ones an ingest under cfg wrote. */
  predicate RowOf(cfg: Config, repo: Repo) {
    && repo.docsDir == cfg.docsDir
    && repo.changelogFile == TextOrNull(ChangelogFile(cfg))
    && repo.apiLanding == TextOrNull(ApiFields(cfg).0)
    && repo.apiAdditional == StringsOrNull(ApiFields(cfg).1)
  }

  /** A text column: null for the empty text. */
  predicate Column(column: Option<string>, text: string) {
    (column.None? <==> text == "") && (column.Some? ==> column.value == text)
  }

  /** What one committed ingest of a configured head serves from the repo row: the files at the changelog and
      landing paths of that very tree, null when absent, empty or switched off, and the columns the push filter
      reads. */
  lemma IngestedRow(lib: Lib, y: Yaml, load: Content -> Result<Config>, r: Remote, cfg: Config, installation: int, l: Label,
                    db: Db, next: int, now: int)
    requires Configured(y, load, r, cfg) && WellPlaced(cfg) && Desired(lib, y, load, r, installation, l).Ok?
    ensures var after := Committed(db, next, Desired(lib, y, load, r, installation, l).value, now);
            && l in after.repos && var repo := after.repos[l];
            && RowOf(cfg, repo) && repo.installation == installation && repo.defaultBranch == r.branch
            && repo.docsDir == cfg.docsDir && repo.config == cfg && Column(repo.lastSyncedSHA, r.head)
            && Column(repo.changelogMD, if cfg.changelogEnabled then FileAt(TreeBlobs(r), cfg.changelogFile).0 else "")
            && Column(repo.changelogSHA, if cfg.changelogEnabled then FileAt(TreeBlobs(r), cfg.changelogFile).1 else "")
            && Column(repo.changelogFile, if cfg.changelogEnabled then cfg.changelogFile else "")
            && Column(repo.indexMD, FileAt(TreeBlobs(r), LandingFile(cfg)).0)
            && Column(repo.indexSHA, FileAt(TreeBlobs(r), LandingFile(cfg)).1)
            && Column(repo.apiLanding, if cfg.apiEnabled then cfg.landing else "")
            && (repo.apiAdditional.None? <==> !cfg.apiEnabled || cfg.additional == [])
            && (repo.apiAdditional.Some? ==> repo.apiAdditional.value == cfg.additional)
            && repo.id == RepoIDFor(db, l, next)
  {
    DesiredOf(lib, y, load, r, cfg, installation, l);
  }

  lemma WatchedIff(cfg: Config, repo: Repo)
    requires RowOf(cfg, repo)
    ensures cfg.changelogEnabled && cfg.changelogFile != "" ==> cfg.changelogFile in WatchedFiles(repo)
    ensures cfg.apiEnabled && cfg.landing != "" ==> cfg.landing in WatchedFiles(repo)
    ensures cfg.apiEnabled ==> forall e :: e in cfg.additional ==> e in WatchedFiles(repo)
  {
    var c, a := TextOf(repo.changelogFile), TextOf(repo.apiLanding);
    assert [c, a][..1] == [c] && [c][..0] == [];
    assert NonEmpty([c, a]) == NonEmpty([c]) + if a != "" then [a] else [];
    assert NonEmpty([c]) == NonEmpty([]) + if c != "" then [c] else [];
  }

  lemma NoEmptyPath(blobs: seq<Blob>)
    requires GitTree(blobs)
    ensures At(blobs, "").None?
  {
    AtIs(blobs, "");
    if At(blobs, "").Some? {
      CleanRelHead("");
    }
  }

  /** The head before, the push and the head after, on trees listed in one path order. */
  ghost predicate Follows(less: (string, string) -> bool, ev: PushEvent, a: Remote, b: Remote) {
    && GoodTree(a) && GoodTree(b) && b.failure.None? && !b.truncated && b.branch == a.branch
    && SortedBy(PathOrder(less), TreeBlobs(a)) && SortedBy(PathOrder(less), TreeBlobs(b))
    && Pushed(ev, TreeBlobs(a), TreeBlobs(b))
  }

  /** The filter skips the push, judged by the row. */
  ghost predicate Skips(ev: PushEvent, repo: Repo) {
    !ShouldIngest(ev, repo.docsDir, WatchedFiles(repo))
  }

  /** docs_dir is stored in the very form the classifier cleans it to. */
  predicate CleanDocsDir(cfg: Config) {
    cfg.docsDir == CleanRepoDir(cfg.docsDir) && CleanRel(cfg.docsDir)
  }

  /** A relevant file is the same in both trees. */
  lemma SkippedFiles(less: (string, string) -> bool, ev: PushEvent, a: Remote, b: Remote, cfg: Config, repo: Repo)
    requires Asymmetric(less) && Follows(less, ev, a, b) && Skips(ev, repo) && RowOf(cfg, repo) && CleanDocsDir(cfg)
    ensures At(TreeBlobs(a), CONFIG_FILE) == At(TreeBlobs(b), CONFIG_FILE)
    ensures cfg.changelogEnabled ==> At(TreeBlobs(a), cfg.changelogFile) == At(TreeBlobs(b), cfg.changelogFile)
    ensures At(TreeBlobs(a), LandingFile(cfg)) == At(TreeBlobs(b), LandingFile(cfg))
    ensures cfg.apiEnabled ==> forall e :: e in cfg.additional ==> At(TreeBlobs(a), e) == At(TreeBlobs(b), e)
    ensures Filter(Under(cfg.docsDir), TreeBlobs(a)) == Filter(Under(cfg.docsDir), TreeBlobs(b))
  {
    var x, z := TreeBlobs(a), TreeBlobs(b);
    var watched := WatchedFiles(repo);
    forall p | Relevant(cfg.docsDir, watched, p) ensures At(x, p) == At(z, p) {
      SkippedKeeps(ev, x, z, repo.docsDir, watched, p);
    }
    WatchedIff(cfg, repo);
    NoEmptyPath(x);
    NoEmptyPath(z);
    SameUnder(less, x, z, cfg.docsDir);
    FixedDocsDir(cfg.docsDir);
    PlainName(LANDING_NAME);
    JoinPathClean(cfg.docsDir, LANDING_NAME);
    UnderDirIntro(cfg.docsDir, LANDING_NAME);
  }

  /** `a` is the head the row was ingested from under cfg, `b` the head after a push the filter skips. An
      ingest of `b` would want exactly the doc types, documents, pages, landing page, changelog and columns
      that one of `a` wants, or fail exactly as it would: only the head sha differs. The config stays in force. */
  lemma SkippedPushChangesNothing(lib: Lib, y: Yaml, load: Content -> Result<Config>, less: (string, string) -> bool,
                                  ev: PushEvent, a: Remote, b: Remote, cfg: Config, repo: Repo, installation: int, l: Label)
    requires Configured(y, load, a, cfg) && WellPlaced(cfg) && CleanDocsDir(cfg) && RowOf(cfg, repo)
    requires Asymmetric(less) && Follows(less, ev, a, b) && Skips(ev, repo)
    ensures Configured(y, load, b, cfg)
    ensures Desired(lib, y, load, b, installation, l) == WithHead(Desired(lib, y, load, a, installation, l), b.head)
  {
    SkippedFiles(less, ev, a, b, cfg, repo);
    SameDesired(lib, y, load, a, b, cfg, installation, l);
  }

  /** Any number of pushes in a row, each of them skipped. */
  ghost predicate AllSkipped(less: (string, string) -> bool, evs: seq<PushEvent>, heads: seq<Remote>, repo: Repo) {
    && |heads| == |evs| + 1
    && forall i :: 0 <= i < |evs| ==> Follows(less, evs[i], heads[i], heads[i + 1]) && Skips(evs[i], repo)
  }

  lemma WithHeadTwice(d: Result<ReconcileInput>, one: string, two: string)
    ensures WithHead(WithHead(d, one), two) == WithHead(d, two)
  {
  }

  /** However many pushes are skipped, the last head wants what the ingested one wanted. */
  lemma {:induction false} SkippedPushesChangeNothing(lib: Lib, y: Yaml, load: Content -> Result<Config>, less: (string, string) -> bool,
                                                      evs: seq<PushEvent>, heads: seq<Remote>, cfg: Config, repo: Repo,
                                                      installation: int, l: Label)
    requires AllSkipped(less, evs, heads, repo) && Asymmetric(less)
    requires Configured(y, load, heads[0], cfg) && WellPlaced(cfg) && CleanDocsDir(cfg) && RowOf(cfg, repo)
    ensures Configured(y, load, heads[|evs|], cfg)
    ensures Desired(lib, y, load, heads[|evs|], installation, l) ==
            WithHead(Desired(lib, y, load, heads[0], installation, l), heads[|evs|].head)
    decreases |evs|
  {
    if evs == [] {
      DesiredOf(lib, y, load, heads[0], cfg, installation, l);
    } else {
      var n := |evs| - 1;
      assert forall i :: 0 <= i < n ==> evs[..n][i] == evs[i];
      assert forall i :: 0 <= i <= n ==> heads[..n + 1][i] == heads[i];
      SkippedPushesChangeNothing(lib, y, load, less, evs[..n], heads[..n + 1], cfg, repo, installation, l);
      assert Follows(less, evs[n], heads[n], heads[n + 1]);
      SkippedPushChangesNothing(lib, y, load, less, evs[n], heads[n], heads[n + 1], cfg, repo, installation, l);
      WithHeadTwice(Desired(lib, y, load, heads[0], installation, l), heads[n].head, heads[n + 1].head);
    }
  }

  /** So the ingest it saves would have moved the recorded head sha and nothing else. */
  lemma SkippedIngestMovesOnlyHead(db: Db, next: int, input: ReconcileInput, head: string, now: int, later: int)
    requires OneHashPerKey(DocEntries(input.documents)) && OneHashPerKey(PageEntries(input.pages))
    ensures var l := LabelOf(input.repo);
            var was := Committed(db, next, input, now);
            var moved := input.(repo := input.repo.(lastSyncedSHA := head));
            Committed(was, next + 1, moved, later) ==
            was.(repos := was.repos[l := was.repos[l].(lastSyncedSHA := TextOrNull(head))])
  {
    var l := LabelOf(input.repo);
    var id := RepoIDFor(db, l, next);
    var rows := RowsAt(db, id);
    var after := ReconciledRows(rows, input, now);
    IdempotentIff(rows.docs, DocEntries(input.documents), now);
    IdempotentIff(rows.pages, PageEntries(input.pages), now);
    NothingToDo(after.docs, DocEntries(input.documents), later);
    NothingToDo(after.pages, PageEntries(input.pages), later);
    var was := Committed(db, next, input, now);
    assert was.rows[id] == after;
    assert ReconciledRows(after, input.(repo := input.repo.(lastSyncedSHA := head)), later) == after;
    assert was.rows[id := after] == was.rows;
  }

  lemma SkippedPushesWant(lib: Lib, y: Yaml, load: Content -> Result<Config>, less: (string, string) -> bool,
                          evs: seq<PushEvent>, heads: seq<Remote>, cfg: Config, installation: int, l: Label,
                          db: Db, next: int, now: int)
    requires |heads| == |evs| + 1 && Asymmetric(less)
    requires Configured(y, load, heads[0], cfg) && WellPlaced(cfg) && CleanDocsDir(cfg)
    requires Desired(lib, y, load, heads[0], installation, l).Ok?
    requires var was := Committed(db, next, Desired(lib, y, load, heads[0], installation, l).value, now);
             l in was.repos ==> AllSkipped(less, evs, heads, was.repos[l])
    ensures LabelOf(Desired(lib, y, load, heads[0], installation, l).value.repo) == l
    ensures Desired(lib, y, load, heads[|evs|], installation, l) ==
            WithHead(Desired(lib, y, load, heads[0], installation, l), heads[|evs|].head)
  {
    var was := Committed(db, next, Desired(lib, y, load, heads[0], installation, l).value, now);
    IngestedRow(lib, y, load, heads[0], cfg, installation, l, db, next, now);
    DesiredOf(lib, y, load, heads[0], cfg, installation, l);
    SkippedPushesChangeNothing(lib, y, load, less, evs, heads, cfg, was.repos[l], installation, l);
  }

  /** All together: ingest a head, push any number of times, let the filter skip every push. Then an ingest of the
      last head, run after all, would change one column of one row. */
  lemma SkippedPushesServeNothingStale(lib: Lib, y: Yaml, load: Content -> Result<Config>, less: (string, string) -> bool,
                                       evs: seq<PushEvent>, heads: seq<Remote>, cfg: Config, installation: int, l: Label,
                                       db: Db, next: int, now: int, later: int)
    requires |heads| == |evs| + 1 && Asymmetric(less)
    requires Configured(y, load, heads[0], cfg) && WellPlaced(cfg) && CleanDocsDir(cfg)
    requires Desired(lib, y, load, heads[0], installation, l).Ok?
    requires var input := Desired(lib, y, load, heads[0], installation, l).value;
             OneHashPerKey(DocEntries(input.documents)) && OneHashPerKey(PageEntries(input.pages))
    requires var was := Committed(db, next, Desired(lib, y, load, heads[0], installation, l).value, now);
             l in was.repos ==> AllSkipped(less, evs, heads, was.repos[l])
    ensures Desired(lib, y, load, heads[|evs|], installation, l).Ok?
    ensures var was := Committed(db, next, Desired(lib, y, load, heads[0], installation, l).value, now);
            && l in was.repos
            && Committed(was, next + 1, Desired(lib, y, load, heads[|evs|], installation, l).value, later) ==
               was.(repos := was.repos[l := was.repos[l].(lastSyncedSHA := TextOrNull(heads[|evs|].head))])
  {
    var input := Desired(lib, y, load, heads[0], installation, l).value;
    SkippedPushesWant(lib, y, load, less, evs, heads, cfg, installation, l, db, next, now);
    SkippedIngestMovesOnlyHead(db, next, input, heads[|evs|].head, now, later);
  }
}
