/** ingest/pages.go: which fetched blobs an enabled api block publishes, and at which path. */
module Pages {
  import opened Text
  import opened RepoPath
  import opened Config

  datatype Page = Page(path: string, repoPath: string, title: string, gitSHA: string, contentHash: string, rawMD: Content)

  // ---------------------------------------------------------------- the classifier's rules

  datatype Rules = Rules(docsDir: string, landing: string, exclude: seq<string>, typeDirs: seq<string>)

  function Prefixes(docsDir: string, entries: seq<string>): seq<string> {
    if entries == [] then []
    else Prefixes(docsDir, entries[..|entries| - 1]) + [JoinPath(docsDir, entries[|entries| - 1])]
  }

  function RulesOf(cfg: Config): Rules {
    var docsDir := CleanRepoDir(cfg.docsDir);
    Rules(docsDir, cfg.landing, [JoinPath(docsDir, TEMPLATES_DIR)] + Prefixes(docsDir, cfg.exclude), TypeDirs(cfg, cfg.types))
  }

  predicate Excluded(r: Rules, p: string) {
    exists prefix :: prefix in r.exclude && (p == prefix || UnderDir(p, prefix))
  }

  /** The first enabled type directory p lies under, or "". */
  function TypeDirOf(dirs: seq<string>, p: string): (td: string)
    ensures td != "" ==> td in dirs && UnderDir(p, td)
    ensures td == "" ==> forall d :: d in dirs && d != "" && !UnderDir(p, "") ==> !UnderDir(p, d)
  {
    if dirs == [] then "" else if UnderDir(p, dirs[0]) then dirs[0] else TypeDirOf(dirs[1..], p)
  }

  predicate ControlFree(p: string) {
    forall c :: c in p ==> c >= ' ' && c != '\U{7F}' && c != '\\'
  }

  predicate ValidPublishedPath(p: string) {
    && p != "" && !HasPrefix(p, "/") && ControlFree(p)
    && forall seg :: seg in Split(p) ==> !(seg == "" || seg == "." || seg == "..")
  }

  /** p is judged neither excluded nor docz-managed, inside docs_dir. */
  predicate Open(r: Rules, p: string) {
    UnderDir(p, r.docsDir) && !Excluded(r, p) && TypeDirOf(r.typeDirs, p) == ""
  }

  function Rel(r: Rules, p: string): string {
    TrimPrefix(p, r.docsDir + "/")
  }

  /** The directory a blob claims as its README.md, if any. */
  function Claim(r: Rules, p: string): Option<string> {
    if Open(r, p) && Dir(Rel(r, p)) != "." && Base(Rel(r, p)) == README_NAME
    then Some(Dir(Rel(r, p))) else None
  }

  function Claims(r: Rules, blobs: seq<Blob>): set<string> {
    set b | b in blobs && Claim(r, b.path).Some? :: Claim(r, b.path).value
  }

  /** classifyDocsDir: the published path of one blob, given the claimed directories. */
  function Classify(r: Rules, readme: set<string>, p: string): Option<string> {
    if p == r.landing then None
    else if !UnderDir(p, r.docsDir) || !HasSuffix(p, ".md") then None
    else if Excluded(r, p) then None
    else if TypeDirOf(r.typeDirs, p) != "" then None
    else
      var rel := Rel(r, p);
      var dir, base := Dir(rel), Base(rel);
      if dir != "." && base == README_NAME then Some(dir)
      else if dir != "." && base == LANDING_NAME && dir !in readme then Some(dir)
      else Some(rel)
  }

  function Published(r: Rules, readme: set<string>, p: string): Option<string> {
    var x := Classify(r, readme, p);
    if x.Some? && ValidPublishedPath(x.value) then x else None
  }

  function PageInput(lib: Lib, blob: Blob, published: string): Page {
    var title := lib.title(blob.content);
    Page(published, blob.path, if title == "" then lib.fallback(Base(published)) else title,
         blob.sha, lib.hash(blob.content), blob.content)
  }

  // ---------------------------------------------------------------- the page list, as a value

  function DocsPages(lib: Lib, r: Rules, readme: set<string>, blobs: seq<Blob>): seq<Page> {
    if blobs == [] then []
    else
      var b := blobs[|blobs| - 1];
      var x := Published(r, readme, b.path);
      DocsPages(lib, r, readme, blobs[..|blobs| - 1]) + if x.Some? then [PageInput(lib, b, x.value)] else []
  }

  /** The last blob at each path. */
  function ByPath(blobs: seq<Blob>): map<string, Blob> {
    if blobs == [] then map[]
    else ByPath(blobs[..|blobs| - 1])[blobs[|blobs| - 1].path := blobs[|blobs| - 1]]
  }

  predicate Publishes(byPath: map<string, Blob>, taken: set<string>, entry: string) {
    HasSuffix(entry, ".md") && entry in byPath && entry !in taken
  }

  function ExtraPages(lib: Lib, byPath: map<string, Blob>, taken: set<string>, entries: seq<string>): seq<Page> {
    if entries == [] then []
    else
      var e := entries[|entries| - 1];
      ExtraPages(lib, byPath, taken, entries[..|entries| - 1])
      + if Publishes(byPath, taken, e) then [PageInput(lib, byPath[e], e)] else []
  }

  function Paths(pages: seq<Page>): set<string> {
    set pg | pg in pages :: pg.path
  }

  function DocsPagesOf(lib: Lib, cfg: Config, blobs: seq<Blob>): seq<Page> {
    DocsPages(lib, RulesOf(cfg), Claims(RulesOf(cfg), blobs), blobs)
  }

  function PagesOf(lib: Lib, cfg: Config, blobs: seq<Blob>): seq<Page> {
    if !cfg.apiEnabled then []
    else
      var docs := DocsPagesOf(lib, cfg, blobs);
      docs + ExtraPages(lib, ByPath(blobs), Paths(docs), cfg.additional)
  }

  // ---------------------------------------------------------------- the classifier and the builder, as code

  class PageClassifier {
    var docsDir: string
    var landing: string
    var exclude: seq<string>
    var typeDirs: seq<string>
    var readmeDirs: set<string>

    function AsRules(): Rules
      reads this
    {
      Rules(docsDir, landing, exclude, typeDirs)
    }

    constructor (cfg: Config)
      ensures AsRules() == RulesOf(cfg)
      ensures readmeDirs == {}
    {
      docsDir := CleanRepoDir(cfg.docsDir);
      landing := cfg.landing;
      exclude := [];
      typeDirs := [];
      readmeDirs := {};
      new;
      AppendExcludes(cfg.exclude);
      AppendTypeDirs(cfg);
    }

    method AppendExcludes(entries: seq<string>)
      modifies this`exclude
      ensures exclude == [JoinPath(docsDir, TEMPLATES_DIR)] + Prefixes(docsDir, entries)
    {
      exclude := [JoinPath(docsDir, TEMPLATES_DIR)];
      for i := 0 to |entries|
        invariant exclude == [JoinPath(docsDir, TEMPLATES_DIR)] + Prefixes(docsDir, entries[..i])
      {
        assert entries[..i + 1][..i] == entries[..i];
        exclude := exclude + [JoinPath(docsDir, entries[i])];
      }
      assert entries[..|entries|] == entries;
    }

    method AppendTypeDirs(cfg: Config)
      modifies this`typeDirs
      ensures typeDirs == TypeDirs(cfg, cfg.types)
    {
      typeDirs := [];
      for i := 0 to |cfg.types|
        invariant typeDirs == TypeDirs(cfg, cfg.types[..i])
      {
        assert cfg.types[..i + 1][..i] == cfg.types[..i];
        typeDirs := typeDirs + [TypeDir(cfg, cfg.types[i])];
      }
      assert cfg.types[..|cfg.types|] == cfg.types;
    }

    method ClaimReadmeDirs(blobs: seq<Blob>)
      modifies this`readmeDirs
      ensures readmeDirs == old(readmeDirs) + Claims(AsRules(), blobs)
    {
      for i := 0 to |blobs|
        invariant readmeDirs == old(readmeDirs) + Claims(AsRules(), blobs[..i])
      {
        var p := blobs[i].path;
        var was := Claims(AsRules(), blobs[..i]);
        ClaimsStep(AsRules(), blobs, i);
        if !UnderDir(p, docsDir) || Excluded(AsRules(), p) || TypeDirOf(typeDirs, p) != "" {
          continue;
        }
        var rel := TrimPrefix(p, docsDir + "/");
        var dir := Dir(rel);
        if dir != "." && Base(rel) == README_NAME {
          readmeDirs := readmeDirs + {dir};
        }
      }
      assert blobs[..|blobs|] == blobs;
    }

    function ClassifyDocsDir(p: string): Option<string>
      reads this
    {
      Classify(AsRules(), readmeDirs, p)
    }
  }

  lemma ClaimsStep(r: Rules, blobs: seq<Blob>, i: nat)
    requires i < |blobs|
    ensures Claims(r, blobs[..i + 1]) == Claims(r, blobs[..i]) +
      (if Claim(r, blobs[i].path).Some? then {Claim(r, blobs[i].path).value} else {})
  {
    var a, b := blobs[..i + 1], blobs[..i];
    assert a == b + [blobs[i]];
    assert forall x :: x in a <==> x in b || x == blobs[i];
  }

  lemma PathsAppend(a: seq<Page>, b: seq<Page>)
    ensures Paths(a + b) == Paths(a) + Paths(b)
  {
    assert forall x :: x in a + b <==> x in a || x in b;
    forall p | p in Paths(a) + Paths(b) ensures p in Paths(a + b) {
      var pg :| (pg in a || pg in b) && pg.path == p;
      assert pg in a + b;
    }
  }

  /** The first pass: the docs_dir pages, the published paths they take, and every blob by its path. */
  method DocsDirPages(lib: Lib, c: PageClassifier, blobs: seq<Blob>)
    returns (pages: seq<Page>, taken: map<string, string>, blobByPath: map<string, Blob>)
    ensures pages == DocsPages(lib, c.AsRules(), c.readmeDirs, blobs)
    ensures taken.Keys == Paths(pages) && blobByPath == ByPath(blobs)
  {
    pages, taken, blobByPath := [], map[], map[];
    for i := 0 to |blobs|
      invariant pages == DocsPages(lib, c.AsRules(), c.readmeDirs, blobs[..i])
      invariant taken.Keys == Paths(pages) && blobByPath == ByPath(blobs[..i])
    {
      var blob := blobs[i];
      assert blobs[..i + 1][..i] == blobs[..i];
      blobByPath := blobByPath[blob.path := blob];
      var published := c.ClassifyDocsDir(blob.path);
      if published.None? || !ValidPublishedPath(published.value) {
        continue;
      }
      PathsAppend(pages, [PageInput(lib, blob, published.value)]);
      pages := pages + [PageInput(lib, blob, published.value)];
      taken := taken[published.value := blob.path];
    }
    assert blobs[..|blobs|] == blobs;
  }

  /** The second pass: the additional_docs entries that are there and whose path is not taken. */
  method AdditionalPages(lib: Lib, blobByPath: map<string, Blob>, taken: map<string, string>, entries: seq<string>)
    returns (pages: seq<Page>)
    ensures pages == ExtraPages(lib, blobByPath, taken.Keys, entries)
  {
    pages := [];
    for j := 0 to |entries|
      invariant pages == ExtraPages(lib, blobByPath, taken.Keys, entries[..j])
    {
      var entry := entries[j];
      assert entries[..j + 1][..j] == entries[..j];
      if !HasSuffix(entry, ".md") || entry !in blobByPath || entry in taken {
        continue;
      }
      pages := pages + [PageInput(lib, blobByPath[entry], entry)];
    }
    assert entries[..|entries|] == entries;
  }

  method BuildPages(lib: Lib, cfg: Config, blobs: seq<Blob>) returns (pages: seq<Page>)
    ensures pages == PagesOf(lib, cfg, blobs)
  {
    if !cfg.apiEnabled {
      return [];
    }
    var c := new PageClassifier(cfg);
    c.ClaimReadmeDirs(blobs);
    assert c.AsRules() == RulesOf(cfg) && c.readmeDirs == Claims(RulesOf(cfg), blobs);
    var docs, taken, blobByPath := DocsDirPages(lib, c, blobs);
    var extra := AdditionalPages(lib, blobByPath, taken, cfg.additional);
    return docs + extra;
  }
}
