/** The page list from the config and the files alone: which files are pages, at which addresses, in which order. */
module Publishing {
  import opened Text
  import opened Seqs
  import opened RepoPath
  import opened Config
  import opened Pages
  import opened PageLaws

  // ---------------------------------------------------------------- from the config and the paths

  /** p lies below dir, slash-separated. */
  predicate Below(p: string, dir: string) {
    |p| > |dir| && p[..|dir|] == dir && p[|dir|] == '/'
  }

  predicate AtOrBelow(p: string, x: string) {
    p == x || Below(p, x)
  }

  /** In docs_dir, and neither in templates, nor under an excluded entry, nor in an enabled type's directory. */
  predicate Offered(cfg: Config, p: string) {
    var d := CleanRepoDir(cfg.docsDir);
    && Below(p, d)
    && !AtOrBelow(p, JoinPath(d, "templates"))
    && (forall e :: e in cfg.exclude ==> !AtOrBelow(p, JoinPath(d, e)))
    && (forall t :: t in cfg.types ==> !Below(p, JoinPath(cfg.docsDir, t.dir)))
  }

  /** The directory x of docs_dir has a README.md that is offered. */
  predicate HasReadme(cfg: Config, blobs: seq<Blob>, x: string) {
    exists b :: b in blobs && b.path == CleanRepoDir(cfg.docsDir) + "/" + x + "/README.md" && Offered(cfg, b.path)
  }

  predicate Ends(rel: string, name: string) {
    HasSuffix(rel, "/" + name)
  }

  function Parent(rel: string, name: string): string
    requires Ends(rel, name)
  {
    rel[..|rel| - |name| - 1]
  }

  /** Where a file of docs_dir is published: a directory's README.md at the directory, so too its index.md when no
      README.md is offered there, every other file at its own relative path. */
  function Address(cfg: Config, blobs: seq<Blob>, rel: string): string {
    if Ends(rel, "README.md") then Parent(rel, "README.md")
    else if Ends(rel, "index.md") && !HasReadme(cfg, blobs, Parent(rel, "index.md")) then Parent(rel, "index.md")
    else rel
  }

  function Relative(cfg: Config, p: string): string
    requires Below(p, CleanRepoDir(cfg.docsDir))
  {
    p[|CleanRepoDir(cfg.docsDir)| + 1..]
  }

  predicate Printable(a: string) {
    forall c :: c in a ==> c >= ' ' && c != '\U{7F}' && c != '\\'
  }

  /** A file of docs_dir that is a page. */
  predicate IsPage(cfg: Config, blobs: seq<Blob>, p: string) {
    && Offered(cfg, p) && HasSuffix(p, ".md") && p != cfg.landing
    && Printable(Address(cfg, blobs, Relative(cfg, p)))
  }

  /** Column by column, the page of one file at one address. */
  predicate PageFrom(lib: Lib, b: Blob, address: string, pg: Page) {
    && pg.path == address && pg.repoPath == b.path && pg.gitSHA == b.sha
    && pg.contentHash == lib.hash(b.content) && pg.rawMD == b.content
    && pg.title == if lib.title(b.content) != "" then lib.title(b.content) else lib.fallback(Base(address))
  }

  // ---------------------------------------------------------------- one path

  lemma BelowIs(p: string, dir: string)
    ensures Below(p, dir) <==> UnderDir(p, dir)
  {
    if UnderDir(p, dir) {
      assert p[..|dir| + 1] == dir + "/";
      assert p[..|dir|] == (dir + "/")[..|dir|];
    }
  }

  lemma ExcludedIs(cfg: Config, p: string)
    ensures var d := CleanRepoDir(cfg.docsDir);
            Excluded(RulesOf(cfg), p) <==>
              AtOrBelow(p, JoinPath(d, "templates")) || exists e :: e in cfg.exclude && AtOrBelow(p, JoinPath(d, e))
  {
    var d, r := CleanRepoDir(cfg.docsDir), RulesOf(cfg);
    PrefixesAre(d, cfg.exclude);
    assert r.exclude == [JoinPath(d, TEMPLATES_DIR)] + Prefixes(d, cfg.exclude);
    forall x ensures AtOrBelow(p, x) <==> p == x || UnderDir(p, x) {
      BelowIs(p, x);
    }
    if Excluded(r, p) {
      var x :| x in r.exclude && (p == x || UnderDir(p, x));
      assert AtOrBelow(p, x);
    }
    if AtOrBelow(p, JoinPath(d, TEMPLATES_DIR)) {
      assert r.exclude[0] in r.exclude;
    }
    if e :| e in cfg.exclude && AtOrBelow(p, JoinPath(d, e)) {
      assert JoinPath(d, e) in r.exclude;
    }
  }

  lemma {:induction false} PrefixesAre(d: string, entries: seq<string>)
    ensures forall x :: x in Prefixes(d, entries) <==> exists e :: e in entries && JoinPath(d, e) == x
  {
    if entries != [] {
      var n := |entries| - 1;
      PrefixesAre(d, entries[..n]);
      assert forall e :: e in entries <==> e in entries[..n] || e == entries[n];
    }
  }

  /** A plain path below no "" directory: the type directories it is under are found. */
  lemma {:induction false} TypeDirIs(cfg: Config, p: string)
    requires CleanRel(p)
    ensures TypeDirOf(TypeDirs(cfg, cfg.types), p) == "" <==> forall t :: t in cfg.types ==> !Below(p, JoinPath(cfg.docsDir, t.dir))
  {
    CleanRelHead(p);
    var dirs := TypeDirs(cfg, cfg.types);
    forall t | t in cfg.types ensures TypeDir(cfg, t) in dirs && (Below(p, TypeDir(cfg, t)) <==> UnderDir(p, TypeDir(cfg, t))) {
      var i :| 0 <= i < |cfg.types| && cfg.types[i] == t;
      assert dirs[i] == TypeDir(cfg, t);
      BelowIs(p, TypeDir(cfg, t));
    }
    var td := TypeDirOf(dirs, p);
    if td != "" {
      var i :| 0 <= i < |dirs| && dirs[i] == td;
      assert cfg.types[i] in cfg.types;
    }
  }

  lemma OfferedIs(cfg: Config, p: string)
    requires CleanRel(p)
    ensures Offered(cfg, p) <==> Open(RulesOf(cfg), p)
    ensures Offered(cfg, p) ==> Rel(RulesOf(cfg), p) == Relative(cfg, p) && CleanRel(Relative(cfg, p))
  {
    BelowIs(p, CleanRepoDir(cfg.docsDir));
    ExcludedIs(cfg, p);
    TypeDirIs(cfg, p);
    if Offered(cfg, p) {
      RelPlain(RulesOf(cfg), p);
    }
  }

  // ---------------------------------------------------------------- one address

  lemma EndsJoin(x: string, name: string)
    ensures Ends(x + "/" + name, name) && Parent(x + "/" + name, name) == x
  {
    assert x + "/" + name == x + ("/" + name);
    HasSuffixTail(x, "/" + name);
  }

  lemma ParentJoin(rel: string, name: string)
    requires Ends(rel, name)
    ensures rel == Parent(rel, name) + "/" + name
  {
  }

  /** Ending in a slash and a name is having that name in some directory. */
  lemma EndsIs(rel: string, name: string)
    requires CleanRel(rel) && CleanRel(name) && '/' !in name
    ensures Ends(rel, name) <==> Dir(rel) != "." && Base(rel) == name
    ensures Ends(rel, name) ==> Parent(rel, name) == Dir(rel) && CleanRel(Dir(rel))
  {
    if Ends(rel, name) {
      ParentIs(rel, name);
    } else if Dir(rel) != "." && Base(rel) == name {
      DirBase(rel);
      EndsJoin(Dir(rel), name);
    }
  }

  lemma ParentIs(rel: string, name: string)
    requires CleanRel(rel) && CleanRel(name) && '/' !in name && Ends(rel, name)
    ensures Dir(rel) == Parent(rel, name) != "." && Base(rel) == name && CleanRel(Dir(rel))
  {
    var x := Parent(rel, name);
    ParentJoin(rel, name);
    CleanRelHead(name);
    CleanRelSlash(x, name);
    CleanRelHead(x);
    DirBaseOf(x, name);
  }

  lemma HasReadmeIs(cfg: Config, blobs: seq<Blob>, x: string)
    requires CleanRel(x) && CleanRel(CleanRepoDir(cfg.docsDir)) && forall b :: b in blobs ==> CleanRel(b.path)
    ensures HasReadme(cfg, blobs, x) <==> x in Claims(RulesOf(cfg), blobs)
  {
    var r := RulesOf(cfg);
    ClaimedIff(r, blobs, x);
    forall b | b in blobs ensures Offered(cfg, b.path) <==> Open(r, b.path) {
      OfferedIs(cfg, b.path);
    }
    assert FileIn(r, x, README_NAME) == CleanRepoDir(cfg.docsDir) + "/" + x + "/README.md";
  }

  lemma AddressIs(cfg: Config, blobs: seq<Blob>, p: string)
    requires CleanRel(p) && Offered(cfg, p) && HasSuffix(p, ".md") && p != cfg.landing && forall b :: b in blobs ==> CleanRel(b.path)
    ensures Classify(RulesOf(cfg), Claims(RulesOf(cfg), blobs), p) == Some(Address(cfg, blobs, Relative(cfg, p)))
    ensures CleanRel(Address(cfg, blobs, Relative(cfg, p)))
  {
    var rel := Relative(cfg, p);
    OfferedIs(cfg, p);
    BelowIs(p, CleanRepoDir(cfg.docsDir));
    UnderDirSplit(p, CleanRepoDir(cfg.docsDir));
    PlainNames();
    EndsIs(rel, README_NAME);
    EndsIs(rel, LANDING_NAME);
    if Ends(rel, LANDING_NAME) {
      HasReadmeIs(cfg, blobs, Dir(rel));
    }
  }

  lemma ValidIs(a: string)
    requires CleanRel(a)
    ensures ValidPublishedPath(a) <==> Printable(a)
  {
    CleanRelHead(a);
  }

  lemma PublishedIs(cfg: Config, blobs: seq<Blob>, p: string)
    requires CleanRel(p) && forall b :: b in blobs ==> CleanRel(b.path)
    ensures var x := Published(RulesOf(cfg), Claims(RulesOf(cfg), blobs), p);
            && (x.Some? <==> IsPage(cfg, blobs, p))
            && (x.Some? ==> x.value == Address(cfg, blobs, Relative(cfg, p)) && CleanRel(x.value))
  {
    OfferedIs(cfg, p);
    if Offered(cfg, p) && HasSuffix(p, ".md") && p != cfg.landing {
      AddressIs(cfg, blobs, p);
      ValidIs(Address(cfg, blobs, Relative(cfg, p)));
    }
  }

  // ---------------------------------------------------------------- the whole list

  function PageFiles(cfg: Config, blobs: seq<Blob>): Blob -> bool {
    (b: Blob) => IsPage(cfg, blobs, b.path)
  }

  predicate PagesFrom(lib: Lib, cfg: Config, all: seq<Blob>, files: seq<Blob>, pages: seq<Page>) {
    && |pages| == |files|
    && forall k :: 0 <= k < |pages| ==>
         IsPage(cfg, all, files[k].path) && PageFrom(lib, files[k], Address(cfg, all, Relative(cfg, files[k].path)), pages[k])
  }

  lemma {:induction false} DocsPagesFrom(lib: Lib, cfg: Config, all: seq<Blob>, blobs: seq<Blob>)
    requires (forall b :: b in all ==> CleanRel(b.path)) && forall b :: b in blobs ==> CleanRel(b.path)
    ensures PagesFrom(lib, cfg, all, Filter(PageFiles(cfg, all), blobs), DocsPages(lib, RulesOf(cfg), Claims(RulesOf(cfg), all), blobs))
  {
    if blobs != [] {
      var n := |blobs| - 1;
      assert blobs[n] in blobs && forall b :: b in blobs[..n] ==> b in blobs;
      DocsPagesFrom(lib, cfg, all, blobs[..n]);
      PublishedIs(cfg, all, blobs[n].path);
    }
  }

  /** An additional_docs entry that is a page: markdown, in the tree, and at no docs_dir page's address. */
  predicate IsExtra(cfg: Config, blobs: seq<Blob>, e: string) {
    && HasSuffix(e, ".md") && HasPath(blobs, e)
    && forall b :: b in blobs && IsPage(cfg, blobs, b.path) ==> Address(cfg, blobs, Relative(cfg, b.path)) != e
  }

  function ExtraFiles(cfg: Config, blobs: seq<Blob>): string -> bool {
    (e: string) => IsExtra(cfg, blobs, e)
  }

  /** The page of the file at the entry's path, at that path. */
  predicate EntryFrom(lib: Lib, blobs: seq<Blob>, e: string, pg: Page) {
    exists b :: b in blobs && b.path == e && PageFrom(lib, b, e, pg)
  }

  predicate ExtrasFrom(lib: Lib, blobs: seq<Blob>, entries: seq<string>, pages: seq<Page>) {
    |pages| == |entries| && forall k :: 0 <= k < |pages| ==> EntryFrom(lib, blobs, entries[k], pages[k])
  }

  lemma TakenIs(lib: Lib, cfg: Config, blobs: seq<Blob>, e: string)
    requires forall b :: b in blobs ==> CleanRel(b.path)
    ensures e in Paths(DocsPagesOf(lib, cfg, blobs)) <==>
            exists b :: b in blobs && IsPage(cfg, blobs, b.path) && Address(cfg, blobs, Relative(cfg, b.path)) == e
  {
    var r, readme := RulesOf(cfg), Claims(RulesOf(cfg), blobs);
    DocsPagesIff(lib, r, readme, blobs);
    forall b | b in blobs
      ensures Published(r, readme, b.path) == Some(e) <==>
              IsPage(cfg, blobs, b.path) && Address(cfg, blobs, Relative(cfg, b.path)) == e
    {
      PublishedIs(cfg, blobs, b.path);
    }
    if b :| b in blobs && Published(r, readme, b.path) == Some(e) {
      assert PageInput(lib, b, e) in DocsPages(lib, r, readme, blobs);
    }
  }

  lemma ExtraIs(lib: Lib, cfg: Config, blobs: seq<Blob>, e: string)
    requires forall b :: b in blobs ==> CleanRel(b.path)
    ensures Publishes(ByPath(blobs), Paths(DocsPagesOf(lib, cfg, blobs)), e) <==> IsExtra(cfg, blobs, e)
  {
    ByPathIs(blobs);
    TakenIs(lib, cfg, blobs, e);
  }

  lemma EntryPage(lib: Lib, blobs: seq<Blob>, e: string)
    requires HasPath(blobs, e)
    ensures e in ByPath(blobs) && EntryFrom(lib, blobs, e, PageInput(lib, ByPath(blobs)[e], e))
  {
    ByPathIs(blobs);
    assert PageFrom(lib, ByPath(blobs)[e], e, PageInput(lib, ByPath(blobs)[e], e));
  }

  lemma ExtrasSnoc(lib: Lib, blobs: seq<Blob>, entries: seq<string>, pages: seq<Page>, e: string, pg: Page)
    requires ExtrasFrom(lib, blobs, entries, pages) && EntryFrom(lib, blobs, e, pg)
    ensures ExtrasFrom(lib, blobs, entries + [e], pages + [pg])
  {
  }

  lemma {:induction false} ExtraPagesFrom(lib: Lib, cfg: Config, blobs: seq<Blob>, entries: seq<string>)
    requires forall b :: b in blobs ==> CleanRel(b.path)
    ensures ExtrasFrom(lib, blobs, Filter(ExtraFiles(cfg, blobs), entries),
                       ExtraPages(lib, ByPath(blobs), Paths(DocsPagesOf(lib, cfg, blobs)), entries))
  {
    if entries != [] {
      var n := |entries| - 1;
      var e := entries[n];
      var taken := Paths(DocsPagesOf(lib, cfg, blobs));
      var before, pages := Filter(ExtraFiles(cfg, blobs), entries[..n]), ExtraPages(lib, ByPath(blobs), taken, entries[..n]);
      ExtraPagesFrom(lib, cfg, blobs, entries[..n]);
      ExtraIs(lib, cfg, blobs, e);
      if IsExtra(cfg, blobs, e) {
        EntryPage(lib, blobs, e);
        ExtrasSnoc(lib, blobs, before, pages, e, PageInput(lib, ByPath(blobs)[e], e));
      } else {
        assert before + [] == before && pages + [] == pages;
      }
    }
  }

  /** Over any files with the plain paths git gives them: a switched-off block has no page. An enabled one has, in
      the order of the files, one page for each file of docs_dir that is markdown, not the landing page, offered and
      addressed by printable characters; then, in the order of the entries, one for each additional_docs file that
      is there at an address not yet taken. Nothing else is a page. */
  lemma PagesAre(lib: Lib, cfg: Config, blobs: seq<Blob>)
    requires forall b :: b in blobs ==> CleanRel(b.path)
    ensures !cfg.apiEnabled ==> PagesOf(lib, cfg, blobs) == []
    ensures cfg.apiEnabled ==>
              exists docs, extra ::
                && PagesOf(lib, cfg, blobs) == docs + extra
                && PagesFrom(lib, cfg, blobs, Filter(PageFiles(cfg, blobs), blobs), docs)
                && ExtrasFrom(lib, blobs, Filter(ExtraFiles(cfg, blobs), cfg.additional), extra)
  {
    if cfg.apiEnabled {
      DocsPagesFrom(lib, cfg, blobs, blobs);
      ExtraPagesFrom(lib, cfg, blobs, cfg.additional);
      var docs := DocsPagesOf(lib, cfg, blobs);
      var extra := ExtraPages(lib, ByPath(blobs), Paths(docs), cfg.additional);
      assert PagesOf(lib, cfg, blobs) == docs + extra;
    }
  }
}
