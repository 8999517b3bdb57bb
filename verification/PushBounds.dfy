/** Exactly when the push filter is sound: the stored docs_dir must be in clean form, and the commit list complete. */
module PushBounds {
  import opened Text
  import opened Seqs
  import opened RepoPath
  import opened Config
  import opened Pages
  import opened Documents
  import opened Fetch
  import opened Prefilter
  import opened Heads
  import opened Probe
  import opened Tables
  import opened Service
  import opened Push

  // ---------------------------------------------------------------- two heads that differ in one served file

  function Before(content: Content, p: string): Remote {
    TwoFiles("before", content, p, "one", "1")
  }

  function AfterPush(content: Content, p: string): Remote {
    TwoFiles("after", content, p, "two", "2")
  }

  /** A push that says it modified p. */
  function PushOf(p: string): PushEvent {
    PushEvent("refs/heads/main", "main", [Commit([], [p], [])])
  }

  /** A force push back to an earlier head: the branch moves and no commit is listed. */
  const REWIND := PushEvent("refs/heads/main", "main", [])

  /** A file of docs_dir that is served and not watched by name: with the block on any page that is nothing else,
      with the block off the landing page. */
  predicate ServedFile(lib: Lib, cfg: Config, name: string) {
    if cfg.apiEnabled then ProbeFile(lib, cfg, name)
    else name == LANDING_NAME && ProbePath(cfg, name) != cfg.changelogFile && !UnderDir(ProbePath(cfg, name), CONFIG_FILE)
  }

  lemma ServedShape(lib: Lib, cfg: Config, name: string)
    requires ServedFile(lib, cfg, name) && CleanRel(CleanRepoDir(cfg.docsDir)) && DocsDirHint(cfg.docsDir) == CleanRepoDir(cfg.docsDir)
    ensures var p := ProbePath(cfg, name);
            && CleanRel(p) && p != CONFIG_FILE && !UnderDir(p, CONFIG_FILE) && '/' !in name
            && Dir(p) == CleanRepoDir(cfg.docsDir) && p != cfg.changelogFile && (!cfg.apiEnabled ==> p == LandingFile(cfg))
  {
    if cfg.apiEnabled {
      ProbeShape(lib, cfg, name);
    } else {
      var d := CleanRepoDir(cfg.docsDir);
      PlainName(LANDING_NAME);
      CleanRelHead(LANDING_NAME);
      JoinPathClean(d, LANDING_NAME);
      DirBaseOf(d, LANDING_NAME);
      ConfigFilePlain();
      assert ProbePath(cfg, name)[|d|] == '/';
    }
  }

  lemma {:induction false} NoDocumentsIn(lib: Lib, dirs: map<string, string>, blobs: seq<Blob>)
    requires forall b :: b in blobs ==> Dir(b.path) !in dirs
    ensures Collect(lib, dirs, blobs) == Ok([])
  {
    if blobs != [] {
      assert blobs[|blobs| - 1] in blobs && forall b :: b in blobs[..|blobs| - 1] ==> b in blobs;
      NoDocumentsIn(lib, dirs, blobs[..|blobs| - 1]);
      var none: seq<DocInput> := [];
      assert none + none == none;
    }
  }

  lemma RootFileDir()
    ensures Dir(CONFIG_FILE) == "."
  {
    ConfigFilePlain();
    DirBase(CONFIG_FILE);
  }

  /** Neither file is a document. */
  lemma TwoFilesNoDocuments(lib: Lib, cfg: Config, all: seq<Blob>, p: string)
    requires TypesInside(cfg) && Dir(p) == CleanRepoDir(cfg.docsDir)
    requires forall b :: b in all ==> b.path == CONFIG_FILE || b.path == p
    ensures DocumentsOf(lib, cfg, KeptBlobs(lib, cfg, all)) == Ok([])
  {
    var kept := KeptBlobs(lib, cfg, all);
    FilterIn(KeepBlob(lib.isDocz, DocsDirHint(cfg.docsDir), cfg.apiEnabled), all);
    TypeByDirKeys(cfg, cfg.types);
    RootFileDir();
    forall t | t in cfg.types ensures TypeDir(cfg, t) != CleanRepoDir(cfg.docsDir) && TypeDir(cfg, t) != "." {
      var td, d := TypeDir(cfg, t), CleanRepoDir(cfg.docsDir);
      assert |td| > |d| && td[|d|] == '/';
    }
    assert forall b :: b in kept ==> Dir(b.path) !in TypeByDir(cfg, cfg.types);
    NoDocumentsIn(lib, TypeByDir(cfg, cfg.types), kept);
  }

  // ---------------------------------------------------------------- what an ingest wants of each

  lemma HeadIs(lib: Lib, y: Yaml, load: Content -> Result<Config>, cfg: Config, content: Content, p: string,
               head: string, sha: string, body: Content, installation: int, l: Label)
    requires WellPlaced(cfg) && load(content) == Ok(cfg) && HintsAgree(y, content, cfg)
    requires CleanRel(p) && p != CONFIG_FILE && !UnderDir(p, CONFIG_FILE) && Dir(p) == CleanRepoDir(cfg.docsDir)
    requires sha != "" && sha != "config"
    ensures var r := TwoFiles(head, content, p, sha, body);
            var d := Desired(lib, y, load, r, installation, l);
            && Configured(y, load, r, cfg) && d.Ok?
            && d.value.pages == PagesOf(lib, cfg, Listing(content, p, sha, body))
            && (p == LandingFile(cfg) ==> d.value.repo.indexMD == body)
  {
    TwoFilesWhole(head, content, p, sha, body);
    var r := TwoFiles(head, content, p, sha, body);
    TwoFilesNoDocuments(lib, cfg, TreeBlobs(r), p);
    DesiredOf(lib, y, load, r, cfg, installation, l);
  }

  /** The two heads want different things stored: the page's bytes, or the landing page's. */
  lemma HeadsDiffer(lib: Lib, y: Yaml, load: Content -> Result<Config>, cfg: Config, content: Content, name: string,
                    installation: int, l: Label)
    requires WellPlaced(cfg) && load(content) == Ok(cfg) && HintsAgree(y, content, cfg)
    requires CleanRel(CleanRepoDir(cfg.docsDir)) && DocsDirHint(cfg.docsDir) == CleanRepoDir(cfg.docsDir) && ServedFile(lib, cfg, name)
    ensures var a, b := Before(content, ProbePath(cfg, name)), AfterPush(content, ProbePath(cfg, name));
            && Configured(y, load, a, cfg) && Configured(y, load, b, cfg)
            && !SameWanted(lib, y, load, a, b, installation, l)
  {
    var p := ProbePath(cfg, name);
    ServedShape(lib, cfg, name);
    if cfg.apiEnabled {
      HeadIs(lib, y, load, cfg, content, p, "before", "one", "1", installation, l);
      HeadIs(lib, y, load, cfg, content, p, "after", "two", "2", installation, l);
      PagesDiffer(lib, cfg, content, name);
    } else {
      LandingsDiffer(lib, y, load, cfg, content, p, installation, l);
    }
  }

  lemma PagesDiffer(lib: Lib, cfg: Config, content: Content, name: string)
    requires cfg.apiEnabled && ProbeFile(lib, cfg, name) && CleanRel(CleanRepoDir(cfg.docsDir))
    ensures var p := ProbePath(cfg, name);
            PagesOf(lib, cfg, Listing(content, p, "one", "1")) != PagesOf(lib, cfg, Listing(content, p, "two", "2"))
  {
    var p := ProbePath(cfg, name);
    var one, two := Listing(content, p, "one", "1"), Listing(content, p, "two", "2");
    ProbeShape(lib, cfg, name);
    var b := Blob(p, "one", "1");
    assert one[1] == b;
    ProbeIsPage(lib, cfg, name, one, b);
    var pg := PageInput(lib, b, name);
    if pg in PagesOf(lib, cfg, two) {
      PageFromBlob(lib, cfg, two, pg);
    }
  }

  /** Any path order that puts the config first lists both trees. */
  function ConfigFirst(p: string): (string, string) -> bool {
    (x: string, z: string) => x == CONFIG_FILE && z == p
  }

  lemma PushFollows(content: Content, p: string)
    requires CleanRel(p) && p != CONFIG_FILE && !UnderDir(p, CONFIG_FILE)
    ensures Asymmetric(ConfigFirst(p)) && Follows(ConfigFirst(p), PushOf(p), Before(content, p), AfterPush(content, p))
  {
    TwoFilesWhole("before", content, p, "one", "1");
    TwoFilesWhole("after", content, p, "two", "2");
    var x, z := TreeBlobs(Before(content, p)), TreeBlobs(AfterPush(content, p));
    assert x[0].path == CONFIG_FILE && x[1].path == p && z[0].path == CONFIG_FILE && z[1].path == p;
    assert Touches(PushOf(p).commits[0], p);
  }

  // ---------------------------------------------------------------- exactly when the filter is sound

  /** A row with the columns an ingest under cfg writes. */
  function RowUnder(cfg: Config): Repo {
    Repo(1, 1, "main", cfg.docsDir, cfg, None, None, None, TextOrNull(ChangelogFile(cfg)), None, None,
         TextOrNull(ApiFields(cfg).0), StringsOrNull(ApiFields(cfg).1))
  }

  /** Every skipped push, from any configured head to any head its commits lead to, leaves the desired state as it
      was but for the head. */
  ghost predicate FilterSound(lib: Lib, y: Yaml, load: Content -> Result<Config>, cfg: Config) {
    forall less: (string, string) -> bool, ev: PushEvent, a: Remote, b: Remote, repo: Repo, installation: int, l: Label ::
      SkippedUnder(y, load, cfg, less, ev, a, b, repo) ==> SameWanted(lib, y, load, a, b, installation, l)
  }

  /** The push leads from a head configured by cfg to b, and the filter skips it by a row written under cfg. */
  ghost predicate SkippedUnder(y: Yaml, load: Content -> Result<Config>, cfg: Config, less: (string, string) -> bool,
                               ev: PushEvent, a: Remote, b: Remote, repo: Repo) {
    Configured(y, load, a, cfg) && RowOf(cfg, repo) && Asymmetric(less) && Follows(less, ev, a, b) && Skips(ev, repo)
  }

  predicate SameWanted(lib: Lib, y: Yaml, load: Content -> Result<Config>, a: Remote, b: Remote, installation: int, l: Label) {
    Desired(lib, y, load, b, installation, l) == WithHead(Desired(lib, y, load, a, installation, l), b.head)
  }

  lemma WatchedOnly(cfg: Config, repo: Repo, p: string)
    requires RowOf(cfg, repo) && p in WatchedFiles(repo)
    ensures p == cfg.changelogFile || (cfg.apiEnabled && (p == cfg.landing || p in cfg.additional))
  {
    var c, a := TextOf(repo.changelogFile), TextOf(repo.apiLanding);
    assert [c, a][..1] == [c] && [c][..0] == [];
    assert NonEmpty([c, a]) == NonEmpty([c]) + if a != "" then [a] else [];
    assert NonEmpty([c]) == NonEmpty([]) + if c != "" then [c] else [];
  }

  /** With docs_dir stored in any other form, a push that rewrites the served file is skipped. */
  lemma ServedFileSkipped(lib: Lib, cfg: Config, name: string)
    requires WellPlaced(cfg) && CleanRel(CleanRepoDir(cfg.docsDir)) && DocsDirHint(cfg.docsDir) == CleanRepoDir(cfg.docsDir)
    requires ServedFile(lib, cfg, name) && cfg.docsDir != CleanRepoDir(cfg.docsDir)
    ensures Skips(PushOf(ProbePath(cfg, name)), RowUnder(cfg))
  {
    var p, d := ProbePath(cfg, name), CleanRepoDir(cfg.docsDir);
    ServedShape(lib, cfg, name);
    CleanRepoDirShrinks(cfg.docsDir);
    NotPrefixed(d, cfg.docsDir, name);
    if p in WatchedFiles(RowUnder(cfg)) {
      WatchedOnly(cfg, RowUnder(cfg), p);
    }
    assert !Relevant(cfg.docsDir, WatchedFiles(RowUnder(cfg)), p);
  }

  /** For a config whose docs_dir cleans to a plain path and whose hints agree, the push filter is sound if and only
      if docs_dir is stored in clean form. A stored "docs/" or "./docs" passes every other check and lets the
      served copies of pushed files go stale. */
  lemma FilterSoundIff(lib: Lib, y: Yaml, load: Content -> Result<Config>, cfg: Config, content: Content, name: string)
    requires WellPlaced(cfg) && CleanRel(CleanRepoDir(cfg.docsDir)) && DocsDirHint(cfg.docsDir) == CleanRepoDir(cfg.docsDir)
    requires load(content) == Ok(cfg) && HintsAgree(y, content, cfg) && ServedFile(lib, cfg, name)
    ensures FilterSound(lib, y, load, cfg) <==> cfg.docsDir == CleanRepoDir(cfg.docsDir)
  {
    if cfg.docsDir == CleanRepoDir(cfg.docsDir) {
      CleanIsSound(lib, y, load, cfg);
    } else {
      OtherwiseUnsound(lib, y, load, cfg, content, name);
    }
  }

  lemma CleanIsSound(lib: Lib, y: Yaml, load: Content -> Result<Config>, cfg: Config)
    requires WellPlaced(cfg) && CleanDocsDir(cfg)
    ensures FilterSound(lib, y, load, cfg)
  {
    forall less: (string, string) -> bool, ev: PushEvent, a: Remote, b: Remote, repo: Repo, installation: int, l: Label |
      SkippedUnder(y, load, cfg, less, ev, a, b, repo)
      ensures SameWanted(lib, y, load, a, b, installation, l)
    {
      SkippedPushChangesNothing(lib, y, load, less, ev, a, b, cfg, repo, installation, l);
    }
  }

  lemma OtherwiseUnsound(lib: Lib, y: Yaml, load: Content -> Result<Config>, cfg: Config, content: Content, name: string)
    requires WellPlaced(cfg) && CleanRel(CleanRepoDir(cfg.docsDir)) && DocsDirHint(cfg.docsDir) == CleanRepoDir(cfg.docsDir)
    requires load(content) == Ok(cfg) && HintsAgree(y, content, cfg) && ServedFile(lib, cfg, name)
    requires cfg.docsDir != CleanRepoDir(cfg.docsDir)
    ensures !FilterSound(lib, y, load, cfg)
  {
    var p := ProbePath(cfg, name);
    HeadsDiffer(lib, y, load, cfg, content, name, 1, ("o", "n"));
    ServedPushSkipped(lib, y, load, cfg, content, name);
    assert SkippedUnder(y, load, cfg, ConfigFirst(p), PushOf(p), Before(content, p), AfterPush(content, p), RowUnder(cfg));
  }

  lemma ServedPushSkipped(lib: Lib, y: Yaml, load: Content -> Result<Config>, cfg: Config, content: Content, name: string)
    requires WellPlaced(cfg) && CleanRel(CleanRepoDir(cfg.docsDir)) && DocsDirHint(cfg.docsDir) == CleanRepoDir(cfg.docsDir)
    requires ServedFile(lib, cfg, name) && cfg.docsDir != CleanRepoDir(cfg.docsDir)
    requires Configured(y, load, Before(content, ProbePath(cfg, name)), cfg)
    ensures var p := ProbePath(cfg, name);
            SkippedUnder(y, load, cfg, ConfigFirst(p), PushOf(p), Before(content, p), AfterPush(content, p), RowUnder(cfg))
  {
    var p := ProbePath(cfg, name);
    ServedShape(lib, cfg, name);
    PushFollows(content, p);
    ServedFileSkipped(lib, cfg, name);
    assert RowOf(cfg, RowUnder(cfg));
  }

  lemma RewindSkipped(repo: Repo)
    ensures OnDefaultBranch(REWIND) && Skips(REWIND, repo)
  {
  }

  /** The commit list matters: a force push that rewinds the branch lists none, is skipped whatever docs_dir is,
      and leaves the served copy stale. */
  lemma RewindGoesStale(lib: Lib, y: Yaml, load: Content -> Result<Config>, cfg: Config, content: Content, name: string,
                        repo: Repo, installation: int, l: Label)
    requires WellPlaced(cfg) && CleanRel(CleanRepoDir(cfg.docsDir)) && DocsDirHint(cfg.docsDir) == CleanRepoDir(cfg.docsDir)
    requires load(content) == Ok(cfg) && HintsAgree(y, content, cfg) && ServedFile(lib, cfg, name)
    ensures var a, b := Before(content, ProbePath(cfg, name)), AfterPush(content, ProbePath(cfg, name));
            && Configured(y, load, a, cfg) && Configured(y, load, b, cfg)
            && OnDefaultBranch(REWIND) && Skips(REWIND, repo)
            && !SameWanted(lib, y, load, a, b, installation, l)
  {
    HeadsDiffer(lib, y, load, cfg, content, name, installation, l);
    RewindSkipped(repo);
  }

  // ---------------------------------------------------------------- docs_dir at the repository root

  lemma DotTrims()
    ensures TrimSpace(".") == "."
  {
    var s := ".";
    assert s[0] == '.' && s[|s| - 1] == '.' && !IsSpace('.');
    assert TrimLeft(s) == s;
    assert TrimRight(s) == s;
  }

  lemma RootDocsDir()
    ensures CleanRepoDir(".") == "." && DocsDirHint(".") == "." && JoinPath(".", LANDING_NAME) == LANDING_NAME
  {
    SplitSlashFree(".");
    assert PushAll([], ["."], false) == PushAll(RepoPath.Push([], ".", false), [], false);
    DotTrims();
    PlainName(LANDING_NAME);
    CleanRelHead(LANDING_NAME);
    var p := "." + "/" + LANDING_NAME;
    assert HasPrefix(p, "./") && p[2..] == LANDING_NAME;
    assert StripDotSlash(p) == StripDotSlash(LANDING_NAME) == LANDING_NAME;
    CleanStrip(p);
    CleanFixes(LANDING_NAME);
  }

  /** A docs_dir of "." is its own clean form and still unsound: the landing page is index.md, and no path of a
      tree starts with "./". */
  lemma RootDocsDirUnsound(lib: Lib, y: Yaml, load: Content -> Result<Config>, cfg: Config, content: Content)
    requires !cfg.apiEnabled && cfg.docsDir == "." && cfg.types == [] && cfg.changelogFile != LANDING_NAME
    requires load(content) == Ok(cfg) && HintsAgree(y, content, cfg)
    ensures !FilterSound(lib, y, load, cfg)
  {
    RootDocsDir();
    RootFileShape();
    RootPushSkipped(cfg);
    LandingUnsound(lib, y, load, cfg, content, LANDING_NAME);
  }

  /** A skipped push that rewrites the landing page. */
  lemma LandingUnsound(lib: Lib, y: Yaml, load: Content -> Result<Config>, cfg: Config, content: Content, p: string)
    requires WellPlaced(cfg) && load(content) == Ok(cfg) && HintsAgree(y, content, cfg) && p == LandingFile(cfg)
    requires CleanRel(p) && p != CONFIG_FILE && !UnderDir(p, CONFIG_FILE) && Dir(p) == CleanRepoDir(cfg.docsDir)
    requires Skips(PushOf(p), RowUnder(cfg))
    ensures !FilterSound(lib, y, load, cfg)
  {
    LandingsDiffer(lib, y, load, cfg, content, p, 1, ("o", "n"));
    PushFollows(content, p);
    assert RowOf(cfg, RowUnder(cfg));
    assert SkippedUnder(y, load, cfg, ConfigFirst(p), PushOf(p), Before(content, p), AfterPush(content, p), RowUnder(cfg));
  }

  lemma LandingsDiffer(lib: Lib, y: Yaml, load: Content -> Result<Config>, cfg: Config, content: Content, p: string,
                       installation: int, l: Label)
    requires WellPlaced(cfg) && load(content) == Ok(cfg) && HintsAgree(y, content, cfg) && p == LandingFile(cfg)
    requires CleanRel(p) && p != CONFIG_FILE && !UnderDir(p, CONFIG_FILE) && Dir(p) == CleanRepoDir(cfg.docsDir)
    ensures Configured(y, load, Before(content, p), cfg) && Configured(y, load, AfterPush(content, p), cfg)
    ensures !SameWanted(lib, y, load, Before(content, p), AfterPush(content, p), installation, l)
  {
    HeadIs(lib, y, load, cfg, content, p, "before", "one", "1", installation, l);
    HeadIs(lib, y, load, cfg, content, p, "after", "two", "2", installation, l);
  }

  lemma RootFileShape()
    ensures CleanRel(LANDING_NAME) && Dir(LANDING_NAME) == "." && LANDING_NAME != CONFIG_FILE && !UnderDir(LANDING_NAME, CONFIG_FILE)
  {
    PlainName(LANDING_NAME);
    DirBase(LANDING_NAME);
    assert (CONFIG_FILE + "/")[0] == '.' && LANDING_NAME[0] == 'i';
  }

  lemma RootPushSkipped(cfg: Config)
    requires !cfg.apiEnabled && cfg.docsDir == "." && cfg.changelogFile != LANDING_NAME
    ensures Skips(PushOf(LANDING_NAME), RowUnder(cfg))
  {
    if LANDING_NAME in WatchedFiles(RowUnder(cfg)) {
      WatchedOnly(cfg, RowUnder(cfg), LANDING_NAME);
    }
    assert LANDING_NAME[0] == 'i' && ("." + "/")[0] == '.' && CONFIG_FILE[0] == '.';
    assert !Relevant(".", WatchedFiles(RowUnder(cfg)), LANDING_NAME);
  }

  // ---------------------------------------------------------------- two configs anyone might write

  const CHANGELOG := "CHANGELOG.md"

  /** An enabled block with nothing but a docs_dir that ends in slashes. */
  function SlashConfig(dir: string, slashes: string): Config {
    Config(dir + slashes, [], false, CHANGELOG, true, dir + "/" + LANDING_NAME, [], [])
  }

  function SlashYaml(dir: string, slashes: string): Yaml {
    Yaml((c: Content) => Some(RawConfig(dir + slashes, false, "", true, "", [], [])), "docs", false, CHANGELOG)
  }

  lemma SlashHints(dir: string, slashes: string, content: Content)
    requires CleanRel(dir) && TrimSpace(dir) == dir && slashes in {"/", "//"}
    ensures HintsAgree(SlashYaml(dir, slashes), content, SlashConfig(dir, slashes))
    ensures TypesInside(SlashConfig(dir, slashes)) && ExtrasOutside(SlashConfig(dir, slashes))
  {
    var hint := DocsDirHint(dir + slashes);
    TrailingSlashes(dir);
    CleanRelHead(dir);
    CleanFixes(dir);
    CleanTrailingSlash(dir);
    PlainName(LANDING_NAME);
    JoinBelow(hint, LANDING_NAME);
    assert TrimSpace("") == "" && StripDotSlash("") == "";
    assert HintOf("") == "";
  }

  lemma SlashClean(dir: string, slashes: string)
    requires CleanRel(dir) && TrimSpace(dir) == dir && slashes in {"/", "//"}
    ensures CleanRepoDir(dir + slashes) == dir
  {
    TrailingSlashes(dir);
  }

  lemma SlashRules(dir: string, slashes: string)
    requires CleanRel(dir) && TrimSpace(dir) == dir && slashes in {"/", "//"}
    ensures RulesOf(SlashConfig(dir, slashes)) == Rules(dir, dir + "/" + LANDING_NAME, [dir + "/" + TEMPLATES_DIR], [])
  {
    SlashClean(dir, slashes);
    PlainName(TEMPLATES_DIR);
    JoinPathClean(dir, TEMPLATES_DIR);
  }

  lemma SiblingOpen(dir: string, other: string, landing: string, name: string)
    requires '/' !in name && name != other
    ensures Open(Rules(dir, landing, [dir + "/" + other], []), dir + "/" + name)
  {
    UnderDirIntro(dir, name);
    NotPrefixed(dir, dir + "/" + other, name);
    SameTail(dir, name, other);
  }

  lemma SameTail(dir: string, name: string, other: string)
    ensures dir + "/" + name == dir + "/" + other ==> name == other
  {
    assert (dir + "/" + name)[|dir| + 1..] == name && (dir + "/" + other)[|dir| + 1..] == other;
  }

  lemma SlashProbe(lib: Lib, dir: string, slashes: string, name: string)
    requires CleanRel(dir) && TrimSpace(dir) == dir && slashes in {"/", "//"}
    requires PageFile(name) && !lib.isDocz(name) && name != LANDING_NAME && !UnderDir(dir + "/" + name, CONFIG_FILE)
    ensures ProbeFile(lib, SlashConfig(dir, slashes), name)
  {
    SlashClean(dir, slashes);
    SlashRules(dir, slashes);
    TemplatesNoPage(name);
    FlatChangelog();
    PlainProbe(lib, SlashConfig(dir, slashes), dir, TEMPLATES_DIR, LANDING_NAME, name);
  }

  lemma FlatChangelog()
    ensures '/' !in CHANGELOG
  {
  }

  lemma TemplatesNoPage(name: string)
    requires PageFile(name)
    ensures name != TEMPLATES_DIR
  {
    assert HasSuffix(name, ".md") && !HasSuffix(TEMPLATES_DIR, ".md");
  }

  lemma PlainProbe(lib: Lib, cfg: Config, dir: string, templates: string, landing: string, name: string)
    requires CleanRepoDir(cfg.docsDir) == dir && RulesOf(cfg) == Rules(dir, dir + "/" + landing, [dir + "/" + templates], [])
    requires cfg.landing == dir + "/" + landing && '/' !in cfg.changelogFile
    requires PageFile(name) && !lib.isDocz(name) && name != landing && name != templates && !UnderDir(dir + "/" + name, CONFIG_FILE)
    ensures ProbeFile(lib, cfg, name)
  {
    SiblingOpen(dir, templates, dir + "/" + landing, name);
    SameTail(dir, name, landing);
    assert (dir + "/" + name)[|dir|] == '/';
  }

  /** With one trailing slash the fetch and the classifier agree, and only the push filter is unsound. */
  lemma OneSlashGoesStale(lib: Lib, load: Content -> Result<Config>, dir: string, name: string, content: Content)
    requires CleanRel(dir) && TrimSpace(dir) == dir && load(content) == Ok(SlashConfig(dir, "/"))
    requires PageFile(name) && !lib.isDocz(name) && name != LANDING_NAME && !UnderDir(dir + "/" + name, CONFIG_FILE)
    ensures PrefilterSound(lib, SlashYaml(dir, "/"), SlashConfig(dir, "/"), content)
    ensures !FilterSound(lib, SlashYaml(dir, "/"), load, SlashConfig(dir, "/"))
  {
    var y, cfg := SlashYaml(dir, "/"), SlashConfig(dir, "/");
    TrailingSlashes(dir);
    CleanFixes(dir);
    SlashHints(dir, "/", content);
    SlashProbe(lib, dir, "/", name);
    PrefilterSoundIff(lib, y, cfg, content, name);
    FilterSoundIff(lib, y, load, cfg, content, name);
  }

  /** With two, the fetch already loses pages. */
  lemma TwoSlashesLosePages(lib: Lib, dir: string, name: string, content: Content)
    requires CleanRel(dir) && TrimSpace(dir) == dir
    requires PageFile(name) && !lib.isDocz(name) && name != LANDING_NAME && !UnderDir(dir + "/" + name, CONFIG_FILE)
    ensures !PrefilterSound(lib, SlashYaml(dir, "//"), SlashConfig(dir, "//"), content)
  {
    TrailingSlashes(dir);
    CleanRelHead(dir);
    CleanFixes(dir);
    CleanTrailingSlash(dir);
    SlashHints(dir, "//", content);
    SlashProbe(lib, dir, "//", name);
    PrefilterSoundIff(lib, SlashYaml(dir, "//"), SlashConfig(dir, "//"), content, name);
  }
}
