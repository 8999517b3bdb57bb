/** The smallest trees that tell two configurations apart: a .docz.yaml and one markdown file in docs_dir. They show
    exactly when the fetch's filter loses a page. */
module Probe {
  import opened Text
  import opened Seqs
  import opened RepoPath
  import opened Config
  import opened Pages
  import PageLaws
  import opened Documents
  import opened Fetch
  import opened Prefilter

  /** A plain file name, no slash in it, that may be published. */
  predicate PageFile(name: string) {
    name != "" && name != "." && name != ".." && '/' !in name && ControlFree(name) && HasSuffix(name, ".md")
  }

  function ProbePath(cfg: Config, name: string): string {
    CleanRepoDir(cfg.docsDir) + "/" + name
  }

  /** A markdown file directly in docs_dir that is a page and nothing else: not docz-named, not the landing page or
      the changelog, not excluded and in no type directory. */
  predicate ProbeFile(lib: Lib, cfg: Config, name: string) {
    && PageFile(name) && !lib.isDocz(name)
    && Open(RulesOf(cfg), ProbePath(cfg, name))
    && ProbePath(cfg, name) != cfg.landing && ProbePath(cfg, name) != cfg.changelogFile
    && !UnderDir(ProbePath(cfg, name), CONFIG_FILE)
  }

  /** A head whose tree holds the config and one file. */
  function TwoFiles(head: string, config: Content, p: string, sha: string, body: Content): Remote {
    Remote(None, "main", head, [TreeEntry(BlobEntry, CONFIG_FILE, "config"), TreeEntry(BlobEntry, p, sha)], false,
           map["config" := config, sha := body])
  }

  function Listing(config: Content, p: string, sha: string, body: Content): seq<Blob> {
    [Blob(CONFIG_FILE, "config", config), Blob(p, sha, body)]
  }

  lemma TwoEntries(objects: map<string, Content>, c: TreeEntry, e: TreeEntry)
    requires c.kind == BlobEntry && e.kind == BlobEntry && c.sha in objects && e.sha in objects
    ensures BlobsIn(objects, [c, e]) == [Blob(c.path, c.sha, objects[c.sha]), Blob(e.path, e.sha, objects[e.sha])]
  {
    assert [c, e][..1] == [c] && [c][..0] == [];
    assert BlobsIn(objects, [c]) == BlobsIn(objects, []) + [Blob(c.path, c.sha, objects[c.sha])];
  }

  lemma TwoBlobs(x: Blob, z: Blob)
    requires CleanRel(x.path) && CleanRel(z.path) && x.path != z.path && !UnderDir(x.path, z.path) && !UnderDir(z.path, x.path)
    ensures GitTree([x, z]) && At([x, z], x.path) == Some(x) && At([x, z], z.path) == Some(z)
    ensures forall q :: q != x.path && q != z.path ==> At([x, z], q) == None
  {
    var all := [x, z];
    assert all[0] == x && all[1] == z;
    assert !UnderDir(x.path, x.path) && !UnderDir(z.path, z.path);
    AtIs(all, x.path);
    AtIs(all, z.path);
    forall q | q != x.path && q != z.path ensures At(all, q) == None {
      AtIs(all, q);
    }
  }

  lemma TwoFilesWhole(head: string, config: Content, p: string, sha: string, body: Content)
    requires CleanRel(p) && p != CONFIG_FILE && !UnderDir(p, CONFIG_FILE) && sha != "" && sha != "config"
    ensures var r := TwoFiles(head, config, p, sha, body);
            && Readable(r) && TreeBlobs(r) == Listing(config, p, sha, body)
            && Whole(r) && ConfigText(r) == config
            && At(TreeBlobs(r), p) == Some(Blob(p, sha, body))
            && At(TreeBlobs(r), CONFIG_FILE) == Some(Blob(CONFIG_FILE, "config", config))
            && forall q :: q != CONFIG_FILE && q != p ==> At(TreeBlobs(r), q) == None
  {
    var r := TwoFiles(head, config, p, sha, body);
    TwoEntries(r.objects, TreeEntry(BlobEntry, CONFIG_FILE, "config"), TreeEntry(BlobEntry, p, sha));
    ConfigFilePlain();
    TwoBlobs(Blob(CONFIG_FILE, "config", config), Blob(p, sha, body));
  }

  lemma ConfigFilePlain()
    ensures CleanRel(CONFIG_FILE) && '/' !in CONFIG_FILE && !HasSuffix(CONFIG_FILE, ".md")
    ensures forall d :: !UnderDir(CONFIG_FILE, d)
  {
    PlainName(CONFIG_FILE);
    forall d ensures !UnderDir(CONFIG_FILE, d) {
      assert (d + "/")[|d|] == '/';
    }
  }

  lemma PageFileShape(name: string)
    requires PageFile(name)
    ensures CleanRel(name) && Dir(name) == "." && ValidPublishedPath(name)
  {
    PlainName(name);
    DirBase(name);
    SplitSlashFree(name);
    assert name[0] in name;
  }

  lemma ProbeShape(lib: Lib, cfg: Config, name: string)
    requires ProbeFile(lib, cfg, name) && CleanRel(CleanRepoDir(cfg.docsDir))
    ensures var p := ProbePath(cfg, name);
            && CleanRel(p) && '/' in p && Base(p) == name && Dir(p) == CleanRepoDir(cfg.docsDir)
            && HasSuffix(p, ".md") && p != CONFIG_FILE
            && forall readme: set<string> :: Published(RulesOf(cfg), readme, p) == Some(name)
  {
    var d, p, r := CleanRepoDir(cfg.docsDir), ProbePath(cfg, name), RulesOf(cfg);
    PageFileShape(name);
    CleanRelSlash(d, name);
    DirBaseOf(d, name);
    ConfigFilePlain();
    assert p[|d|] == '/';
    HasSuffixTail(d + "/", name);
    HasSuffixTrans(p, name, ".md");
    assert Rel(r, p) == name;
    forall readme: set<string> ensures Published(r, readme, p) == Some(name) {
      assert Classify(r, readme, p) == Some(name);
    }
  }

  /** Every page comes from a blob at its source path, with that blob's bytes. */
  lemma PageFromBlob(lib: Lib, cfg: Config, blobs: seq<Blob>, pg: Page)
    requires pg in PagesOf(lib, cfg, blobs)
    ensures exists b :: b in blobs && b.path == pg.repoPath && b.content == pg.rawMD && b.sha == pg.gitSHA
  {
    if pg in DocsPagesOf(lib, cfg, blobs) {
      PageLaws.DocsPagesIff(lib, RulesOf(cfg), Claims(RulesOf(cfg), blobs), blobs);
    } else {
      PageLaws.ExtraPaths(lib, ByPath(blobs), Paths(DocsPagesOf(lib, cfg, blobs)), cfg.additional);
      PageLaws.ByPathIs(blobs);
    }
  }

  /** The probe is a page of its tree. */
  lemma ProbeIsPage(lib: Lib, cfg: Config, name: string, blobs: seq<Blob>, b: Blob)
    requires cfg.apiEnabled && ProbeFile(lib, cfg, name) && CleanRel(CleanRepoDir(cfg.docsDir))
    requires b in blobs && b.path == ProbePath(cfg, name)
    ensures PageInput(lib, b, name) in PagesOf(lib, cfg, blobs)
  {
    ProbeShape(lib, cfg, name);
    PageLaws.DocsPagesIff(lib, RulesOf(cfg), Claims(RulesOf(cfg), blobs), blobs);
  }

  // ---------------------------------------------------------------- exactly when the pre-filter keeps every page

  /** For every whole head with this .docz.yaml, the pages of what is fetched are the pages of the tree. */
  ghost predicate PrefilterSound(lib: Lib, y: Yaml, cfg: Config, content: Content) {
    forall r: Remote :: Whole(r) && ConfigText(r) == content ==>
      FetchOf(lib, y, r).Ok? && PagesOf(lib, cfg, FetchOf(lib, y, r).value.blobs) == PagesOf(lib, cfg, TreeBlobs(r))
  }

  lemma ProbeLost(lib: Lib, y: Yaml, cfg: Config, content: Content, name: string)
    requires HintsAgree(y, content, cfg) && ExtrasOutside(cfg) && cfg.apiEnabled
    requires CleanRel(CleanRepoDir(cfg.docsDir)) && ProbeFile(lib, cfg, name)
    requires DocsDirHint(cfg.docsDir) != CleanRepoDir(cfg.docsDir)
    ensures !PrefilterSound(lib, y, cfg, content)
  {
    var p := ProbePath(cfg, name);
    ProbeShape(lib, cfg, name);
    TwoFilesWhole("head", content, p, "page", "");
    var r, b := TwoFiles("head", content, p, "page", ""), Blob(p, "page", "");
    var all, hint := TreeBlobs(r), DocsDirHint(cfg.docsDir);
    FetchedBlobs(lib, y, cfg, r);
    assert all[1] == b;
    ProbeIsPage(lib, cfg, name, all, b);
    CleanRepoDirShrinks(cfg.docsDir);
    NotPrefixed(CleanRepoDir(cfg.docsDir), hint, name);
    FilterIn(KeepBlob(lib.isDocz, hint, true), all);
    ExtrasIn(all, cfg.additional);
    var fetched := FetchOf(lib, y, r).value.blobs;
    assert p !in cfg.additional;
    forall x | x in fetched ensures x.path != p {
      assert x in Filter(KeepBlob(lib.isDocz, hint, true), all) || x in Extras(all, cfg.additional);
    }
    if PageInput(lib, b, name) in PagesOf(lib, cfg, fetched) {
      PageFromBlob(lib, cfg, fetched, PageInput(lib, b, name));
    }
  }

  /** The fetch's cheap filter never loses a page exactly when its hint is the directory the classifier uses.
      (Where nothing in docs_dir could be a page there is nothing to lose; the probe excludes that.) */
  lemma PrefilterSoundIff(lib: Lib, y: Yaml, cfg: Config, content: Content, name: string)
    requires HintsAgree(y, content, cfg) && ExtrasOutside(cfg) && cfg.apiEnabled
    requires CleanRel(CleanRepoDir(cfg.docsDir)) && ProbeFile(lib, cfg, name)
    ensures PrefilterSound(lib, y, cfg, content) <==> Clean(DocsDirHint(cfg.docsDir)) == DocsDirHint(cfg.docsDir)
  {
    HintAgreement(cfg.docsDir);
    if DocsDirHint(cfg.docsDir) == CleanRepoDir(cfg.docsDir) {
      forall r: Remote | Whole(r) && ConfigText(r) == content
        ensures FetchOf(lib, y, r).Ok? && PagesOf(lib, cfg, FetchOf(lib, y, r).value.blobs) == PagesOf(lib, cfg, TreeBlobs(r))
      {
        PrefilterKeepsPages(lib, y, cfg, r);
      }
    } else {
      ProbeLost(lib, y, cfg, content, name);
    }
  }

  /** A docs_dir written with one trailing slash is fetched and classified alike; with two, the hint keeps one
      of them and the fetch looks in a directory no tree has. */
  lemma TrailingSlashes(dir: string)
    requires CleanRel(dir) && TrimSpace(dir) == dir
    ensures DocsDirHint(dir + "/") == dir == CleanRepoDir(dir + "/")
    ensures DocsDirHint(dir + "//") == dir + "/" && CleanRepoDir(dir + "//") == dir
  {
    CleanRelHead(dir);
    assert dir + "//" == (dir + "/") + "/";
    TrimSlashed(dir, "/");
    TrimSlashed(dir, "//");
    CleanFixes(dir);
    CleanTrailingSlash(dir);
    CleanTrailingSlash(dir + "/");
  }

  lemma TrimSlashed(dir: string, slashes: string)
    requires CleanRel(dir) && TrimSpace(dir) == dir && slashes in {"/", "//"}
    ensures TrimSpace(dir + slashes) == dir + slashes && StripDotSlash(dir + slashes) == dir + slashes
  {
    CleanRelHead(dir);
    TrimLeftShrinks(dir);
    TrimRightShrinks(TrimLeft(dir));
    if IsSpace(dir[0]) {
      TrimLeftShrinks(dir[1..]);
    }
    var s := dir + slashes;
    assert s[0] == dir[0] && s[|s| - 1] == '/' && !IsSpace('/');
  }
}
