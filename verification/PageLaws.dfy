/** What buildPages guarantees: one row per published path, no dependence on blob order, who serves a directory. */
module PageLaws {
  import opened Text
  import opened RepoPath
  import opened Config
  import opened Pages

  // ---------------------------------------------------------------- membership

  /** The page of one blob is in the list exactly when that blob publishes; nothing else is. */
  lemma {:induction false} DocsPagesIff(lib: Lib, r: Rules, readme: set<string>, blobs: seq<Blob>)
    ensures forall b :: b in blobs && Published(r, readme, b.path).Some? ==>
              PageInput(lib, b, Published(r, readme, b.path).value) in DocsPages(lib, r, readme, blobs)
    ensures forall pg :: pg in DocsPages(lib, r, readme, blobs) ==>
              exists b :: b in blobs && Published(r, readme, b.path) == Some(pg.path) && pg == PageInput(lib, b, pg.path)
  {
    if blobs != [] {
      var n := |blobs| - 1;
      DocsPagesIff(lib, r, readme, blobs[..n]);
      assert forall b :: b in blobs <==> b in blobs[..n] || b == blobs[n];
      forall pg | pg in DocsPages(lib, r, readme, blobs)
        ensures exists b :: b in blobs && Published(r, readme, b.path) == Some(pg.path) && pg == PageInput(lib, b, pg.path)
      {
        if pg in DocsPages(lib, r, readme, blobs[..n]) {
          var b :| b in blobs[..n] && Published(r, readme, b.path) == Some(pg.path) && pg == PageInput(lib, b, pg.path);
          assert b in blobs;
        } else {
          assert blobs[n] in blobs;
        }
      }
    }
  }

  lemma {:induction false} DocsPagesConcat(lib: Lib, r: Rules, readme: set<string>, a: seq<Blob>, b: seq<Blob>)
    ensures DocsPages(lib, r, readme, a + b) == DocsPages(lib, r, readme, a) + DocsPages(lib, r, readme, b)
    decreases |b|
  {
    if b == [] {
      assert a + b == a;
    } else {
      var n := |b| - 1;
      assert (a + b)[..|a + b| - 1] == a + b[..n];
      DocsPagesConcat(lib, r, readme, a, b[..n]);
    }
  }

  // ---------------------------------------------------------------- distinct published paths

  /** A plain docs_dir blob is docs_dir, slash, its relative path, itself plain. */
  lemma RelPlain(r: Rules, p: string)
    requires CleanRel(p) && UnderDir(p, r.docsDir)
    ensures p == r.docsDir + "/" + Rel(r, p) && CleanRel(Rel(r, p))
  {
    UnderDirSplit(p, r.docsDir);
  }

  /** A page is addressed by its own relative path or by its directory, and then it is that directory's
      README.md or index.md. */
  lemma PublishedShape(r: Rules, readme: set<string>, p: string)
    requires CleanRel(p) && Published(r, readme, p).Some?
    ensures Open(r, p) && p == r.docsDir + "/" + Rel(r, p)
    ensures var x, rel := Published(r, readme, p).value, Rel(r, p);
            || x == rel
            || (rel == x + "/" + README_NAME && Claim(r, p) == Some(x))
            || (rel == x + "/" + LANDING_NAME && x !in readme)
  {
    RelPlain(r, p);
    DirBase(Rel(r, p));
  }

  lemma BelowItself(pre: string, x: string, name: string)
    ensures UnderDir(pre + (x + "/" + name), pre + x)
  {
    assert pre + (x + "/" + name) == pre + x + "/" + name;
  }

  /** Two different paths behind one address x are the README.md and the index.md of directory x. */
  lemma AddressCases(pre: string, x: string, p: string, rp: string, q: string, rq: string)
    requires p == pre + rp && q == pre + rq && p != q && !UnderDir(p, q) && !UnderDir(q, p)
    requires rp in {x, x + "/" + README_NAME, x + "/" + LANDING_NAME}
    requires rq in {x, x + "/" + README_NAME, x + "/" + LANDING_NAME}
    ensures rp != x && rq != x && rp != rq
  {
    BelowItself(pre, x, README_NAME);
    BelowItself(pre, x, LANDING_NAME);
  }

  /** Two blobs of one git tree never publish at the same docs_dir path. */
  lemma PublishedInjective(r: Rules, readme: set<string>, p: string, q: string)
    requires CleanRel(p) && CleanRel(q) && p != q && !UnderDir(p, q) && !UnderDir(q, p)
    requires Claim(r, p).Some? ==> Claim(r, p).value in readme
    requires Claim(r, q).Some? ==> Claim(r, q).value in readme
    requires Published(r, readme, p).Some? && Published(r, readme, q).Some?
    ensures Published(r, readme, p) != Published(r, readme, q)
  {
    PublishedShape(r, readme, p);
    PublishedShape(r, readme, q);
    var x := Published(r, readme, p).value;
    if Published(r, readme, q).value == x {
      AddressCases(r.docsDir + "/", x, p, Rel(r, p), q, Rel(r, q));
    }
  }

  predicate DistinctPagePaths(pages: seq<Page>) {
    forall i, j :: 0 <= i < j < |pages| ==> pages[i].path != pages[j].path
  }

  lemma {:induction false} DocsPathsDistinct(lib: Lib, r: Rules, all: seq<Blob>, blobs: seq<Blob>)
    requires GitTree(all) && blobs <= all
    ensures DistinctPagePaths(DocsPages(lib, r, Claims(r, all), blobs))
    decreases |blobs|
  {
    if blobs != [] {
      var n := |blobs| - 1;
      var readme := Claims(r, all);
      var last := blobs[n];
      assert blobs[..n] <= all && last == all[n];
      DocsPathsDistinct(lib, r, all, blobs[..n]);
      var before := DocsPages(lib, r, readme, blobs[..n]);
      if Published(r, readme, last.path).Some? {
        DocsPagesIff(lib, r, readme, blobs[..n]);
        forall i | 0 <= i < |before| ensures before[i].path != Published(r, readme, last.path).value {
          assert before[i] in before;
          var b :| b in blobs[..n] && Published(r, readme, b.path) == Some(before[i].path);
          assert b in all && last in all;
          PublishedInjective(r, readme, b.path, last.path);
        }
      }
    }
  }

  /** Which entry publishes the extra page at each position, and that positions follow the entries. */
  lemma {:induction false} ExtraPaths(lib: Lib, byPath: map<string, Blob>, taken: set<string>, entries: seq<string>)
    ensures forall pg :: pg in ExtraPages(lib, byPath, taken, entries) ==>
              pg.path in entries && Publishes(byPath, taken, pg.path) && pg == PageInput(lib, byPath[pg.path], pg.path)
    ensures forall e :: e in entries && Publishes(byPath, taken, e) ==>
              PageInput(lib, byPath[e], e) in ExtraPages(lib, byPath, taken, entries)
  {
    if entries != [] {
      var n := |entries| - 1;
      ExtraPaths(lib, byPath, taken, entries[..n]);
      assert forall e :: e in entries <==> e in entries[..n] || e == entries[n];
    }
  }

  /** No entry that publishes is listed twice. */
  predicate DistinctEntries(byPath: map<string, Blob>, taken: set<string>, entries: seq<string>) {
    forall i, j :: 0 <= i < j < |entries| && entries[i] == entries[j] ==> !Publishes(byPath, taken, entries[i])
  }

  lemma {:induction false} ExtraDistinct(lib: Lib, byPath: map<string, Blob>, taken: set<string>, entries: seq<string>)
    ensures DistinctPagePaths(ExtraPages(lib, byPath, taken, entries)) <==> DistinctEntries(byPath, taken, entries)
  {
    if entries != [] {
      var n := |entries| - 1;
      var init, e := entries[..n], entries[n];
      var before := ExtraPages(lib, byPath, taken, init);
      ExtraDistinct(lib, byPath, taken, init);
      ExtraPaths(lib, byPath, taken, init);
      EntriesAppend(byPath, taken, init, e);
      assert entries == init + [e];
      if Publishes(byPath, taken, e) {
        var pg := PageInput(lib, byPath[e], e);
        PagesAppend(before, pg);
        if e in init {
          assert pg in before && pg.path in Paths(before);
        }
      } else {
        assert before + [] == before;
      }
    }
  }

  lemma EntriesAppend(byPath: map<string, Blob>, taken: set<string>, init: seq<string>, e: string)
    ensures DistinctEntries(byPath, taken, init + [e]) <==>
            DistinctEntries(byPath, taken, init) && (Publishes(byPath, taken, e) ==> e !in init)
  {
    var all := init + [e];
    assert forall i :: 0 <= i < |init| ==> all[i] == init[i];
    if e in init {
      var k :| 0 <= k < |init| && init[k] == e;
      assert all[k] == all[|init|] == e;
    }
    if DistinctEntries(byPath, taken, all) {
      forall i, j | 0 <= i < j < |init| && init[i] == init[j] ensures !Publishes(byPath, taken, init[i]) {
        assert all[i] == all[j];
      }
    }
  }

  lemma PagesAppend(before: seq<Page>, pg: Page)
    ensures DistinctPagePaths(before + [pg]) <==> DistinctPagePaths(before) && pg.path !in Paths(before)
  {
    var all := before + [pg];
    assert forall i :: 0 <= i < |before| ==> all[i] == before[i] && before[i] in before;
    if DistinctPagePaths(all) {
      assert forall i :: 0 <= i < |before| ==> all[i].path != all[|before|].path;
      forall i, j | 0 <= i < j < |before| ensures before[i].path != before[j].path {
        assert all[i].path != all[j].path;
      }
    }
  }

  lemma {:induction false} PagesConcat(a: seq<Page>, b: seq<Page>)
    requires Paths(a) !! Paths(b)
    ensures DistinctPagePaths(a + b) <==> DistinctPagePaths(a) && DistinctPagePaths(b)
    decreases |b|
  {
    if b == [] {
      assert a + b == a;
    } else {
      var n := |b| - 1;
      assert b == b[..n] + [b[n]] && a + b == (a + b[..n]) + [b[n]];
      PathsAppend(a, b[..n]);
      PathsAppend(b[..n], [b[n]]);
      PagesConcat(a, b[..n]);
      PagesAppend(b[..n], b[n]);
      PagesAppend(a + b[..n], b[n]);
      assert b[n] in b;
    }
  }

  /** One row per published path. Over a git tree, the whole list has pairwise distinct paths exactly when
      no additional_docs entry that publishes is listed twice; and the docs_dir pages come first, so a
      path claimed in both namespaces is served from docs_dir. */
  lemma PublishedPathsDistinct(lib: Lib, cfg: Config, blobs: seq<Blob>)
    requires cfg.apiEnabled && GitTree(blobs)
    ensures DistinctPagePaths(PagesOf(lib, cfg, blobs)) <==>
            DistinctEntries(ByPath(blobs), Paths(DocsPagesOf(lib, cfg, blobs)), cfg.additional)
    ensures DocsPagesOf(lib, cfg, blobs) <= PagesOf(lib, cfg, blobs)
    ensures DistinctPagePaths(DocsPagesOf(lib, cfg, blobs))
  {
    var taken := Paths(DocsPagesOf(lib, cfg, blobs));
    DocsPathsDistinct(lib, RulesOf(cfg), blobs, blobs);
    ExtraDistinct(lib, ByPath(blobs), taken, cfg.additional);
    ExtraPaths(lib, ByPath(blobs), taken, cfg.additional);
    PagesConcat(DocsPagesOf(lib, cfg, blobs), ExtraPages(lib, ByPath(blobs), taken, cfg.additional));
  }

  lemma CleanDotted(d: string)
    requires CleanRel(d)
    ensures Clean(d + "/") == d && Clean(d + "/." + "/") == d
  {
    CleanRelHead(d);
    CleanFixes(d);
    CleanTrailingSlash(d);
    CleanTrailingSlash(d + "/.");
    assert d + "/." == d + "/" + ".";
    SplitSlash(d, ".");
    SplitSlashFree(".");
    PushAllConcat([], Split(d), ["."], false);
    PushAllPlain([], Split(d), false);
    assert [] + Split(d) == Split(d);
    assert PushAll(Split(d), ["."], false) == PushAll(Push(Split(d), ".", false), [], false);
  }

  lemma ReadmeServes(r: Rules, readme: set<string>, p: string, d: string)
    requires p != r.landing && Open(r, p) && HasSuffix(p, ".md")
    requires Dir(Rel(r, p)) == d && Base(Rel(r, p)) == README_NAME && d != "." && ValidPublishedPath(d)
    ensures Published(r, readme, p) == Some(d)
  {
  }

  lemma SpelledPath(docsDir: string, spelled: string)
    ensures var p := docsDir + "/" + (spelled + "/" + README_NAME);
            UnderDir(p, docsDir) && HasSuffix(p, ".md") && TrimPrefix(p, docsDir + "/") == spelled + "/" + README_NAME
  {
    PlainNames();
    var p := docsDir + "/" + (spelled + "/" + README_NAME);
    assert p == (docsDir + "/" + spelled + "/") + README_NAME;
    HasSuffixTail(docsDir + "/" + spelled + "/", README_NAME);
    HasSuffixTrans(p, README_NAME, ".md");
  }

  function SpelledReadme(r: Rules, spelled: string): string {
    r.docsDir + "/" + (spelled + "/" + README_NAME)
  }

  /** A README.md published through some spelling of its directory's path. */
  lemma SpelledServes(r: Rules, readme: set<string>, spelled: string, d: string)
    requires Clean(spelled + "/") == d && CleanRel(d) && ControlFree(d)
    requires Open(r, SpelledReadme(r, spelled)) && SpelledReadme(r, spelled) != r.landing
    ensures Published(r, readme, SpelledReadme(r, spelled)) == Some(d)
  {
    PlainNames();
    CleanRelHead(d);
    CutAt(spelled, README_NAME);
    SpelledPath(r.docsDir, spelled);
    ReadmeServes(r, readme, SpelledReadme(r, spelled), d);
  }

  /** Without plain tree paths the claim fails: under any config, a "." segment lets two blobs that are both open
      and not the landing page publish at one path. */
  lemma DotSegmentCollides(cfg: Config, readme: set<string>, d: string)
    requires CleanRel(d) && ControlFree(d)
    requires var r := RulesOf(cfg);
             && Open(r, SpelledReadme(r, d)) && SpelledReadme(r, d) != r.landing
             && Open(r, SpelledReadme(r, d + "/.")) && SpelledReadme(r, d + "/.") != r.landing
    ensures var r := RulesOf(cfg);
            var p, q := SpelledReadme(r, d), SpelledReadme(r, d + "/.");
            p != q && Published(r, readme, p) == Some(d) && Published(r, readme, q) == Some(d)
  {
    var r := RulesOf(cfg);
    CleanDotted(d);
    SpelledServes(r, readme, d, d);
    SpelledServes(r, readme, d + "/.", d);
    assert |SpelledReadme(r, d)| != |SpelledReadme(r, d + "/.")|;
  }

  // ---------------------------------------------------------------- order independence

  lemma {:induction false} ByPathIs(blobs: seq<Blob>)
    ensures ByPath(blobs).Keys == set b | b in blobs :: b.path
    ensures forall p :: p in ByPath(blobs) ==> ByPath(blobs)[p] in blobs && ByPath(blobs)[p].path == p
  {
    if blobs != [] {
      var n := |blobs| - 1;
      ByPathIs(blobs[..n]);
      assert forall b :: b in blobs <==> b in blobs[..n] || b == blobs[n];
    }
  }

  lemma ByPathAt(blobs: seq<Blob>, b: Blob)
    requires DistinctPaths(blobs) && b in blobs
    ensures b.path in ByPath(blobs) && ByPath(blobs)[b.path] == b
  {
    ByPathIs(blobs);
  }

  lemma SameElements<T>(a: seq<T>, b: seq<T>)
    requires multiset(a) == multiset(b)
    ensures forall x :: x in a <==> x in b
  {
    assert forall x :: x in a <==> x in multiset(a);
    assert forall x :: x in b <==> x in multiset(b);
  }

  lemma DocsPagesTakeOut(lib: Lib, r: Rules, readme: set<string>, u: seq<Blob>, x: Blob, v: seq<Blob>)
    ensures multiset(DocsPages(lib, r, readme, u + ([x] + v))) ==
            multiset(DocsPages(lib, r, readme, u + v)) + multiset(DocsPages(lib, r, readme, [x]))
  {
    DocsPagesConcat(lib, r, readme, u, v);
    DocsPagesConcat(lib, r, readme, u, [x] + v);
    DocsPagesConcat(lib, r, readme, [x], v);
  }

  lemma TakeOut<T>(a: seq<T>, u: seq<T>, x: T, v: seq<T>)
    requires multiset(a + [x]) == multiset(u + ([x] + v))
    ensures multiset(a) == multiset(u + v)
  {
    assert multiset(a) == multiset(a + [x]) - multiset{x};
    assert multiset(u + v) == multiset(u + ([x] + v)) - multiset{x};
  }

  lemma {:induction false} DocsPagesPermute(lib: Lib, r: Rules, readme: set<string>, a: seq<Blob>, b: seq<Blob>)
    requires multiset(a) == multiset(b)
    ensures multiset(DocsPages(lib, r, readme, a)) == multiset(DocsPages(lib, r, readme, b))
    decreases |a|
  {
    if a == [] {
      assert |multiset(b)| == 0;
    } else {
      var init, x := a[..|a| - 1], a[|a| - 1];
      SameElements(a, b);
      assert x in a && x in b;
      var k :| 0 <= k < |b| && b[k] == x;
      var u, v := b[..k], b[k + 1..];
      assert a == init + [x] && b == u + ([x] + v);
      TakeOut(init, u, x, v);
      DocsPagesPermute(lib, r, readme, init, u + v);
      DocsPagesTakeOut(lib, r, readme, u, x, v);
      DocsPagesConcat(lib, r, readme, init, [x]);
    }
  }

  /** Permuting the blobs permutes the docs_dir pages and leaves the additional_docs pages alone; a page
      carries its repo path, so the file that serves each directory does not depend on order either. */
  lemma OrderIndependent(lib: Lib, cfg: Config, a: seq<Blob>, b: seq<Blob>)
    requires DistinctPaths(a) && multiset(a) == multiset(b)
    ensures multiset(PagesOf(lib, cfg, a)) == multiset(PagesOf(lib, cfg, b))
  {
    var r := RulesOf(cfg);
    SameElements(a, b);
    assert Claims(r, a) == Claims(r, b);
    DocsPagesPermute(lib, r, Claims(r, a), a, b);
    var da, db := DocsPagesOf(lib, cfg, a), DocsPagesOf(lib, cfg, b);
    SameElements(da, db);
    assert Paths(da) == Paths(db);
    ByPathIs(a);
    ByPathIs(b);
    forall p | p in ByPath(a) ensures p in ByPath(b) && ByPath(b)[p] == ByPath(a)[p] {
      ByPathAt(a, ByPath(a)[p]);
      assert ByPath(a)[p] in b;
      assert ByPath(b)[p] in a;
    }
    assert ByPath(a) == ByPath(b);
  }

  // ---------------------------------------------------------------- who serves a directory

  lemma PlainNames()
    ensures CleanRel(README_NAME) && CleanRel(LANDING_NAME) && CleanRel(TEMPLATES_DIR)
    ensures '/' !in README_NAME && '/' !in LANDING_NAME
    ensures HasSuffix(README_NAME, ".md") && HasSuffix(LANDING_NAME, ".md")
  {
    PlainName("README.md");
    PlainName("index.md");
    PlainName("templates");
  }

  function FileIn(r: Rules, d: string, name: string): string {
    r.docsDir + "/" + d + "/" + name
  }

  /** A markdown file directly in a plain directory, whatever the names are. */
  lemma FileShape(docsDir: string, d: string, name: string)
    requires CleanRel(d) && CleanRel(docsDir) && CleanRel(name) && '/' !in name && HasSuffix(name, ".md")
    ensures var p := docsDir + "/" + d + "/" + name;
            && CleanRel(p) && UnderDir(p, docsDir) && HasSuffix(p, ".md") && TrimPrefix(p, docsDir + "/") == d + "/" + name
            && Dir(d + "/" + name) == d && Base(d + "/" + name) == name && d != "."
  {
    CleanRelSlash(d, name);
    CleanRelSlash(docsDir, d + "/" + name);
    assert docsDir + "/" + d + "/" + name == docsDir + "/" + (d + "/" + name);
    CleanRelHead(name);
    DirBaseOf(d, name);
    CleanRelHead(d);
    HasSuffixTail(docsDir + "/" + d + "/", name);
    HasSuffixTrans(docsDir + "/" + d + "/" + name, name, ".md");
  }

  lemma DirectoryFile(r: Rules, d: string, name: string)
    requires CleanRel(d) && CleanRel(r.docsDir) && name in {README_NAME, LANDING_NAME}
    ensures var p := FileIn(r, d, name);
            CleanRel(p) && UnderDir(p, r.docsDir) && HasSuffix(p, ".md")
            && Rel(r, p) == d + "/" + name && Dir(Rel(r, p)) == d && Base(Rel(r, p)) == name && d != "."
  {
    PlainNames();
    FileShape(r.docsDir, d, name);
  }

  /** A directory is claimed exactly when its README.md is in the tree, not excluded and not docz-managed. */
  lemma ClaimedIff(r: Rules, blobs: seq<Blob>, d: string)
    requires CleanRel(d) && CleanRel(r.docsDir) && forall b :: b in blobs ==> CleanRel(b.path)
    ensures d in Claims(r, blobs) <==> HasPath(blobs, FileIn(r, d, README_NAME)) && Open(r, FileIn(r, d, README_NAME))
  {
    DirectoryFile(r, d, README_NAME);
    forall b | b in blobs ensures Claim(r, b.path) == Some(d) <==> b.path == FileIn(r, d, README_NAME) && Open(r, b.path) {
      if Claim(r, b.path) == Some(d) {
        RelPlain(r, b.path);
        DirBase(Rel(r, b.path));
        assert r.docsDir + "/" + (d + "/" + README_NAME) == FileIn(r, d, README_NAME);
      }
    }
  }

  /** What one of a directory's two candidate files publishes. */
  lemma DirectoryFilePublished(r: Rules, readme: set<string>, d: string, name: string)
    requires CleanRel(d) && ValidPublishedPath(d) && CleanRel(r.docsDir) && name in {README_NAME, LANDING_NAME}
    ensures var p := FileIn(r, d, name);
            Published(r, readme, p) == Some(d) <==>
              p != r.landing && Open(r, p) && (name == README_NAME || d !in readme)
  {
    DirectoryFile(r, d, name);
    var p := FileIn(r, d, name);
    assert |d + "/" + name| > |d|;
  }

  lemma PublisherIff(lib: Lib, r: Rules, readme: set<string>, blobs: seq<Blob>, d: string, p: string)
    ensures (exists pg :: pg in DocsPages(lib, r, readme, blobs) && pg.path == d && pg.repoPath == p) <==>
            HasPath(blobs, p) && Published(r, readme, p) == Some(d)
  {
    DocsPagesIff(lib, r, readme, blobs);
    if HasPath(blobs, p) && Published(r, readme, p) == Some(d) {
      var b :| b in blobs && b.path == p;
      assert PageInput(lib, b, d) in DocsPages(lib, r, readme, blobs);
    }
  }

  predicate ServedBy(pages: seq<Page>, d: string, p: string) {
    exists pg :: pg in pages && pg.path == d && pg.repoPath == p
  }

  /** The page at directory d comes from its README.md when that file is served, from its index.md only
      when no README.md claims d, and otherwise only from a file whose own path is d. Exclusion is judged
      before the claim; a README.md that is the landing page still claims d but serves nothing, so index.md
      does not step in. */
  lemma DirectoryPage(lib: Lib, cfg: Config, blobs: seq<Blob>, d: string)
    requires GitTree(blobs) && CleanRel(d) && ValidPublishedPath(d) && CleanRel(CleanRepoDir(cfg.docsDir))
    ensures var r := RulesOf(cfg);
            var readme, index := FileIn(r, d, README_NAME), FileIn(r, d, LANDING_NAME);
            var claimed := HasPath(blobs, readme) && Open(r, readme);
            var pages := DocsPagesOf(lib, cfg, blobs);
            && (ServedBy(pages, d, readme) <==> claimed && readme != r.landing)
            && (ServedBy(pages, d, index) <==> HasPath(blobs, index) && Open(r, index) && index != r.landing && !claimed)
            && (forall p :: ServedBy(pages, d, p) ==> p in {readme, index, r.docsDir + "/" + d})
  {
    var r := RulesOf(cfg);
    var readme, index := FileIn(r, d, README_NAME), FileIn(r, d, LANDING_NAME);
    var claims := Claims(r, blobs);
    ClaimedIff(r, blobs, d);
    DirectoryFilePublished(r, claims, d, README_NAME);
    DirectoryFilePublished(r, claims, d, LANDING_NAME);
    PublisherIff(lib, r, claims, blobs, d, readme);
    PublisherIff(lib, r, claims, blobs, d, index);
    forall p | ServedBy(DocsPagesOf(lib, cfg, blobs), d, p) ensures p in {readme, index, r.docsDir + "/" + d} {
      PublisherIff(lib, r, claims, blobs, d, p);
      OnlyServers(r, claims, blobs, d, p);
    }
  }

  lemma FileInAssoc(r: Rules, d: string, name: string)
    ensures r.docsDir + "/" + (d + "/" + name) == FileIn(r, d, name)
  {
  }

  lemma OnlyServers(r: Rules, readme: set<string>, blobs: seq<Blob>, d: string, p: string)
    requires GitTree(blobs) && HasPath(blobs, p) && Published(r, readme, p) == Some(d)
    ensures p in {FileIn(r, d, README_NAME), FileIn(r, d, LANDING_NAME), r.docsDir + "/" + d}
  {
    assert CleanRel(p);
    PublishedShape(r, readme, p);
    FileInAssoc(r, d, README_NAME);
    FileInAssoc(r, d, LANDING_NAME);
  }

  /** No docs_dir page is made from the landing file, templates, an excluded prefix or a type directory. */
  lemma NeverPublished(lib: Lib, cfg: Config, blobs: seq<Blob>, pg: Page)
    requires pg in DocsPagesOf(lib, cfg, blobs)
    ensures pg.repoPath != cfg.landing
    ensures !UnderDir(pg.repoPath, JoinPath(CleanRepoDir(cfg.docsDir), TEMPLATES_DIR))
    ensures forall e :: e in cfg.exclude ==>
              var x := JoinPath(CleanRepoDir(cfg.docsDir), e); pg.repoPath != x && !UnderDir(pg.repoPath, x)
    ensures forall t :: t in cfg.types && TypeDir(cfg, t) != "" && !UnderDir(pg.repoPath, "") ==> !UnderDir(pg.repoPath, TypeDir(cfg, t))
    ensures HasSuffix(pg.repoPath, ".md") && ValidPublishedPath(pg.path)
  {
    var r := RulesOf(cfg);
    DocsPagesIff(lib, r, Claims(r, blobs), blobs);
    PrefixesHold(r.docsDir, cfg.exclude);
    assert r.exclude[0] in r.exclude;
    forall e | e in cfg.exclude ensures JoinPath(r.docsDir, e) in r.exclude {
    }
    forall t | t in cfg.types ensures TypeDir(cfg, t) in r.typeDirs {
      var i :| 0 <= i < |cfg.types| && cfg.types[i] == t;
      assert r.typeDirs[i] in r.typeDirs;
    }
  }

  lemma {:induction false} PrefixesHold(docsDir: string, entries: seq<string>)
    ensures forall e :: e in entries ==> JoinPath(docsDir, e) in Prefixes(docsDir, entries)
  {
    if entries != [] {
      PrefixesHold(docsDir, entries[..|entries| - 1]);
      assert forall e :: e in entries <==> e in entries[..|entries| - 1] || e == entries[|entries| - 1];
    }
  }
}
