/** The fetch's cheap tree filter against the classifier that publishes. */
module Prefilter {
  import opened Text
  import opened Seqs
  import opened RepoPath
  import opened Config
  import opened Pages
  import opened PageLaws
  import opened Documents
  import opened Fetch

  // ---------------------------------------------------------------- the whole tree

  predicate Readable(r: Remote) {
    forall e :: e in r.tree && e.kind == BlobEntry ==> e.sha in r.objects && e.sha != ""
  }

  function BlobsIn(objects: map<string, Content>, tree: seq<TreeEntry>): (blobs: seq<Blob>)
    requires forall e :: e in tree && e.kind == BlobEntry ==> e.sha in objects
  {
    if tree == [] then []
    else
      var e := tree[|tree| - 1];
      BlobsIn(objects, tree[..|tree| - 1])
      + if e.kind == BlobEntry then [Blob(e.path, e.sha, objects[e.sha])] else []
  }

  /** Every blob of the tree, in listing order. */
  function TreeBlobs(r: Remote): seq<Blob>
    requires Readable(r)
  {
    BlobsIn(r.objects, r.tree)
  }

  predicate GoodTree(r: Remote) {
    Readable(r) && GitTree(TreeBlobs(r))
  }

  /** The fetch-level reader sees the values the loaded config has, and docs_dir in the hint's own form. */
  predicate HintsAgree(y: Yaml, config: Content, cfg: Config) {
    var api, cl := ApiHintOf(y, config), ChangelogHint(y, config);
    && DocsDirHintOf(y, config) == DocsDirHint(cfg.docsDir)
    && api.enabled == cfg.apiEnabled
    && (cfg.apiEnabled ==> api.additional == cfg.additional && LandingPath(DocsDirHint(cfg.docsDir), api) == cfg.landing)
    && cl.0 == cfg.changelogEnabled
    && (cfg.changelogEnabled ==> cl.1 == cfg.changelogFile)
  }

  function KeepBlob(isDocz: string -> bool, docsDir: string, apiEnabled: bool): Blob -> bool {
    (b: Blob) => Kept(isDocz, docsDir, apiEnabled, b.path)
  }

  lemma {:induction false} BlobsInIff(objects: map<string, Content>, tree: seq<TreeEntry>)
    requires forall e :: e in tree && e.kind == BlobEntry ==> e.sha in objects
    ensures forall b :: b in BlobsIn(objects, tree) <==>
              exists e :: e in tree && e.kind == BlobEntry && b == Blob(e.path, e.sha, objects[e.sha])
  {
    if tree != [] {
      var n := |tree| - 1;
      assert forall e :: e in tree <==> e in tree[..n] || e == tree[n];
      BlobsInIff(objects, tree[..n]);
      forall b ensures b in BlobsIn(objects, tree) <==>
          exists e :: e in tree && e.kind == BlobEntry && b == Blob(e.path, e.sha, objects[e.sha])
      {
        if b in BlobsIn(objects, tree) && b !in BlobsIn(objects, tree[..n]) {
          assert tree[n] in tree;
        }
      }
    }
  }

  lemma ReadAllSnoc(objects: map<string, Content>, entries: seq<TreeEntry>, e: TreeEntry)
    requires ReadAll(objects, entries).Ok? && e.sha in objects
    ensures ReadAll(objects, entries + [e]) == Ok(ReadAll(objects, entries).value + [Blob(e.path, e.sha, objects[e.sha])])
  {
    assert (entries + [e])[..|entries|] == entries;
  }

  /** Reading the kept entries reads the kept blobs. */
  lemma {:induction false} ReadKept(objects: map<string, Content>, isDocz: string -> bool, docsDir: string, api: bool, tree: seq<TreeEntry>)
    requires forall e :: e in tree && e.kind == BlobEntry ==> e.sha in objects
    ensures ReadAll(objects, Filter(KeepEntry(isDocz, docsDir, api), tree)) ==
            Ok(Filter(KeepBlob(isDocz, docsDir, api), BlobsIn(objects, tree)))
  {
    if tree != [] {
      var init, e := tree[..|tree| - 1], tree[|tree| - 1];
      assert e in tree && forall x :: x in init ==> x in tree;
      ReadKept(objects, isDocz, docsDir, api, init);
      var keepEntry, keepBlob := KeepEntry(isDocz, docsDir, api), KeepBlob(isDocz, docsDir, api);
      var entries, blobs := Filter(keepEntry, init), BlobsIn(objects, init);
      assert entries + [] == entries && blobs + [] == blobs && Filter(keepBlob, blobs) + [] == Filter(keepBlob, blobs);
      if e.kind == BlobEntry {
        var b := Blob(e.path, e.sha, objects[e.sha]);
        assert (blobs + [b])[..|blobs|] == blobs;
        assert keepBlob(b) == keepEntry(e);
        if keepEntry(e) {
          ReadAllSnoc(objects, entries, e);
        }
      }
    }
  }

  lemma {:induction false} FindIs(objects: map<string, Content>, tree: seq<TreeEntry>, p: string)
    requires forall e :: e in tree && e.kind == BlobEntry ==> e.sha in objects && e.sha != ""
    ensures FindBlobSHA(tree, p) == "" <==> !HasPath(BlobsIn(objects, tree), p)
    ensures FindBlobSHA(tree, p) != "" ==>
              FindBlobSHA(tree, p) in objects
              && Blob(p, FindBlobSHA(tree, p), objects[FindBlobSHA(tree, p)]) in BlobsIn(objects, tree)
  {
    BlobsInIff(objects, tree);
    FindEntry(tree, p);
    var sha := FindBlobSHA(tree, p);
    if sha != "" {
      var e :| e in tree && e.kind == BlobEntry && e.path == p && e.sha == sha;
      assert Blob(p, sha, objects[sha]) in BlobsIn(objects, tree);
    }
    if HasPath(BlobsIn(objects, tree), p) {
      var b :| b in BlobsIn(objects, tree) && b.path == p;
      var e :| e in tree && e.kind == BlobEntry && b == Blob(e.path, e.sha, objects[e.sha]);
    }
  }

  /** Lookup of one path in a list of blobs. */
  function At(blobs: seq<Blob>, p: string): Option<Blob> {
    if p in ByPath(blobs) then Some(ByPath(blobs)[p]) else None
  }

  lemma AtIs(blobs: seq<Blob>, p: string)
    requires DistinctPaths(blobs)
    ensures At(blobs, p).Some? <==> HasPath(blobs, p)
    ensures forall b :: b in blobs && b.path == p ==> At(blobs, p) == Some(b)
    ensures At(blobs, p).Some? ==> At(blobs, p).value in blobs && At(blobs, p).value.path == p
  {
    ByPathIs(blobs);
  }

  /** One optional file, read from the whole tree. */
  lemma ReadOptionalIs(r: Remote, p: string)
    requires GoodTree(r)
    ensures ReadOptional(r, p) == (match At(TreeBlobs(r), p) case None => Ok(("", "")) case Some(b) => Ok((b.content, b.sha)))
  {
    FindIs(r.objects, r.tree, p);
    AtIs(TreeBlobs(r), p);
  }

  function Extras(blobs: seq<Blob>, entries: seq<string>): seq<Blob> {
    if entries == [] then []
    else
      var e := entries[|entries| - 1];
      Extras(blobs, entries[..|entries| - 1])
      + if HasSuffix(e, ".md") && At(blobs, e).Some? then [At(blobs, e).value] else []
  }

  lemma {:induction false} ReadExtras(r: Remote, entries: seq<string>)
    requires GoodTree(r)
    ensures ReadAll(r.objects, ExtraEntries(r.tree, entries)) == Ok(Extras(TreeBlobs(r), entries))
  {
    if entries != [] {
      var init, e := entries[..|entries| - 1], entries[|entries| - 1];
      ReadExtras(r, init);
      FindIs(r.objects, r.tree, e);
      AtIs(TreeBlobs(r), e);
      var before, blobs := ExtraEntries(r.tree, init), Extras(TreeBlobs(r), init);
      assert before + [] == before && blobs + [] == blobs;
      if HasSuffix(e, ".md") && At(TreeBlobs(r), e).Some? {
        ReadAllSnoc(r.objects, before, TreeEntry(BlobEntry, e, FindBlobSHA(r.tree, e)));
      }
    }
  }

  /** The head is reachable, and its tree is whole, readable and has a .docz.yaml. */
  predicate Whole(r: Remote) {
    GoodTree(r) && r.failure.None? && !r.truncated && At(TreeBlobs(r), CONFIG_FILE).Some?
  }

  function ConfigText(r: Remote): Content
    requires Whole(r)
  {
    At(TreeBlobs(r), CONFIG_FILE).value.content
  }

  /** On a readable tree nothing fails, and the fetched blobs are the kept ones followed by the extras. */
  lemma FetchedBlobs(lib: Lib, y: Yaml, cfg: Config, r: Remote)
    requires Whole(r) && HintsAgree(y, ConfigText(r), cfg)
    ensures var all := TreeBlobs(r);
            var f := FetchOf(lib, y, r);
            && f.Ok?
            && f.value.configYAML == ConfigText(r)
            && f.value.blobs == Filter(KeepBlob(lib.isDocz, DocsDirHint(cfg.docsDir), cfg.apiEnabled), all)
                                + if cfg.apiEnabled then Extras(all, cfg.additional) else []
  {
    FindIs(r.objects, r.tree, CONFIG_FILE);
    AtIs(TreeBlobs(r), CONFIG_FILE);
    var config := At(TreeBlobs(r), CONFIG_FILE).value.content;
    ReadOptionalIs(r, ChangelogHint(y, config).1);
    ReadOptionalIs(r, LandingPath(DocsDirHintOf(y, config), ApiHintOf(y, config)));
    ReadKept(r.objects, lib.isDocz, DocsDirHint(cfg.docsDir), cfg.apiEnabled, r.tree);
    ReadExtras(r, ApiHintOf(y, config).additional);
  }

  // ---------------------------------------------------------------- what the builders look at

  lemma {:induction false} DocsPagesFilter(lib: Lib, r: Rules, readme: set<string>, keep: Blob -> bool, blobs: seq<Blob>)
    requires forall b :: b in blobs && Published(r, readme, b.path).Some? ==> keep(b)
    ensures DocsPages(lib, r, readme, Filter(keep, blobs)) == DocsPages(lib, r, readme, blobs)
  {
    if blobs != [] {
      var init, last := blobs[..|blobs| - 1], blobs[|blobs| - 1];
      assert last in blobs && forall b :: b in init ==> b in blobs;
      DocsPagesFilter(lib, r, readme, keep, init);
      DocsPagesConcat(lib, r, readme, Filter(keep, init), if keep(last) then [last] else []);
      DocsPagesConcat(lib, r, readme, init, [last]);
      assert blobs == init + [last];
      if !keep(last) {
        assert Filter(keep, init) + [] == Filter(keep, init);
        assert DocsPages(lib, r, readme, init) + [] == DocsPages(lib, r, readme, init);
      }
    }
  }

  lemma ClaimsFilter(r: Rules, keep: Blob -> bool, blobs: seq<Blob>)
    requires forall b :: b in blobs && Claim(r, b.path).Some? ==> keep(b)
    ensures Claims(r, Filter(keep, blobs)) == Claims(r, blobs)
  {
    FilterIn(keep, blobs);
  }

  /** The page candidates: markdown under docs_dir. */
  function Candidate(docsDir: string): Blob -> bool {
    (b: Blob) => UnderDir(b.path, docsDir) && HasSuffix(b.path, ".md")
  }

  lemma ClaimIsMarkdown(r: Rules, p: string)
    requires CleanRel(p) && Claim(r, p).Some?
    ensures HasSuffix(p, ".md")
  {
    RelPlain(r, p);
    DirBase(Rel(r, p));
    PlainNames();
    var head := r.docsDir + "/" + Dir(Rel(r, p)) + "/";
    assert p == head + README_NAME;
    HasSuffixTail(head, README_NAME);
    HasSuffixTrans(p, README_NAME, ".md");
  }

  lemma DocsPagesLocal(lib: Lib, cfg: Config, blobs: seq<Blob>)
    requires forall b :: b in blobs ==> CleanRel(b.path)
    ensures DocsPagesOf(lib, cfg, Filter(Candidate(CleanRepoDir(cfg.docsDir)), blobs)) == DocsPagesOf(lib, cfg, blobs)
  {
    var r := RulesOf(cfg);
    var keep := Candidate(r.docsDir);
    forall b | b in blobs && Claim(r, b.path).Some? ensures keep(b) {
      ClaimIsMarkdown(r, b.path);
    }
    ClaimsFilter(r, keep, blobs);
    DocsPagesFilter(lib, r, Claims(r, blobs), keep, blobs);
  }

  lemma {:induction false} ExtraPagesLocal(lib: Lib, m: map<string, Blob>, n: map<string, Blob>, taken: set<string>, entries: seq<string>)
    requires forall e :: e in entries && HasSuffix(e, ".md") ==> (e in m <==> e in n) && (e in m ==> m[e] == n[e])
    ensures ExtraPages(lib, m, taken, entries) == ExtraPages(lib, n, taken, entries)
  {
    if entries != [] {
      assert entries[|entries| - 1] in entries && forall e :: e in entries[..|entries| - 1] ==> e in entries;
      ExtraPagesLocal(lib, m, n, taken, entries[..|entries| - 1]);
    }
  }

  /** The pages depend only on the candidates, in order, and on the files at the additional_docs paths. */
  lemma PagesLocal(lib: Lib, cfg: Config, a: seq<Blob>, b: seq<Blob>)
    requires forall x :: x in a ==> CleanRel(x.path)
    requires forall x :: x in b ==> CleanRel(x.path)
    requires Filter(Candidate(CleanRepoDir(cfg.docsDir)), a) == Filter(Candidate(CleanRepoDir(cfg.docsDir)), b)
    requires forall e :: e in cfg.additional && HasSuffix(e, ".md") ==> At(a, e) == At(b, e)
    ensures PagesOf(lib, cfg, a) == PagesOf(lib, cfg, b)
  {
    DocsPagesLocal(lib, cfg, a);
    DocsPagesLocal(lib, cfg, b);
    forall e | e in cfg.additional && HasSuffix(e, ".md")
      ensures (e in ByPath(a) <==> e in ByPath(b)) && (e in ByPath(a) ==> ByPath(a)[e] == ByPath(b)[e])
    {
      assert At(a, e) == At(b, e);
    }
    ExtraPagesLocal(lib, ByPath(a), ByPath(b), Paths(DocsPagesOf(lib, cfg, a)), cfg.additional);
  }

  // ---------------------------------------------------------------- the pre-filter preserves meaning

  lemma {:induction false} ExtrasIn(blobs: seq<Blob>, entries: seq<string>)
    requires DistinctPaths(blobs)
    ensures forall b :: b in Extras(blobs, entries) <==>
              b in blobs && b.path in entries && HasSuffix(b.path, ".md")
  {
    if entries != [] {
      var n := |entries| - 1;
      ExtrasIn(blobs, entries[..n]);
      AtIs(blobs, entries[n]);
      assert forall e :: e in entries <==> e in entries[..n] || e == entries[n];
    }
  }

  lemma FetchedFrom(isDocz: string -> bool, hint: string, all: seq<Blob>, entries: seq<string>)
    requires DistinctPaths(all)
    ensures var fetched := Filter(KeepBlob(isDocz, hint, true), all) + Extras(all, entries);
            && (forall b :: b in fetched ==> b in all)
            && (forall e :: e in entries && HasSuffix(e, ".md") ==> At(fetched, e) == At(all, e))
  {
    var kept := Filter(KeepBlob(isDocz, hint, true), all);
    var fetched := kept + Extras(all, entries);
    FilterIn(KeepBlob(isDocz, hint, true), all);
    ExtrasIn(all, entries);
    assert forall b :: b in fetched <==> b in kept || b in Extras(all, entries);
    ByPathIs(fetched);
    forall e | e in entries && HasSuffix(e, ".md") ensures At(fetched, e) == At(all, e) {
      AtIs(all, e);
      if At(all, e).Some? {
        assert At(all, e).value in fetched;
      }
      if At(fetched, e).Some? {
        assert ByPath(fetched)[e] in fetched;
      }
    }
  }

  lemma ExtrasNotCandidates(cfg: Config, all: seq<Blob>, keep: Blob -> bool)
    requires DistinctPaths(all) && ExtrasOutside(cfg) && cfg.apiEnabled
    requires forall b :: b in all && keep(b) ==> UnderDir(b.path, CleanRepoDir(cfg.docsDir))
    ensures Filter(keep, Extras(all, cfg.additional)) == []
  {
    ExtrasIn(all, cfg.additional);
    FilterNone(keep, Extras(all, cfg.additional));
  }

  lemma PrefilterPages(lib: Lib, cfg: Config, all: seq<Blob>)
    requires GitTree(all) && ExtrasOutside(cfg) && cfg.apiEnabled
    ensures PagesOf(lib, cfg, Filter(KeepBlob(lib.isDocz, CleanRepoDir(cfg.docsDir), true), all) + Extras(all, cfg.additional)) ==
            PagesOf(lib, cfg, all)
  {
    var d := CleanRepoDir(cfg.docsDir);
    var keep, cand := KeepBlob(lib.isDocz, d, true), Candidate(d);
    FetchedFrom(lib.isDocz, d, all, cfg.additional);
    ExtrasNotCandidates(cfg, all, cand);
    FilterFilter(cand, keep, cand, all);
    FilterConcat(cand, Filter(keep, all), Extras(all, cfg.additional));
    assert Filter(cand, all) + [] == Filter(cand, all);
    PagesLocal(lib, cfg, Filter(keep, all) + Extras(all, cfg.additional), all);
  }

  /** buildPages over what the fetch kept is buildPages over every blob of the tree, page for page and in order,
      for every docs_dir on which the fetch's hint and the classifier agree. */
  lemma PrefilterKeepsPages(lib: Lib, y: Yaml, cfg: Config, r: Remote)
    requires Whole(r) && HintsAgree(y, ConfigText(r), cfg) && ExtrasOutside(cfg) && cfg.apiEnabled
    requires DocsDirHint(cfg.docsDir) == CleanRepoDir(cfg.docsDir)
    ensures FetchOf(lib, y, r).Ok?
    ensures PagesOf(lib, cfg, FetchOf(lib, y, r).value.blobs) == PagesOf(lib, cfg, TreeBlobs(r))
  {
    FetchedBlobs(lib, y, cfg, r);
    PrefilterPages(lib, cfg, TreeBlobs(r));
  }

  /** buildDocuments over what the fetch kept is buildDocuments over the tree's docz-named files, widened to
      every markdown file under the hint when the api block is enabled. */
  lemma PrefilterDocuments(lib: Lib, y: Yaml, cfg: Config, r: Remote)
    requires Whole(r) && HintsAgree(y, ConfigText(r), cfg) && TypesInside(cfg) && ExtrasOutside(cfg)
    ensures FetchOf(lib, y, r).Ok?
    ensures DocumentsOf(lib, cfg, FetchOf(lib, y, r).value.blobs) ==
            DocumentsOf(lib, cfg, Filter(KeepBlob(lib.isDocz, DocsDirHint(cfg.docsDir), cfg.apiEnabled), TreeBlobs(r)))
  {
    FetchedBlobs(lib, y, cfg, r);
    var all := TreeBlobs(r);
    var keep := KeepBlob(lib.isDocz, DocsDirHint(cfg.docsDir), cfg.apiEnabled);
    FilterIn(keep, all);
    if cfg.apiEnabled {
      DocumentsDropExtras(lib, cfg, all, Filter(keep, all));
    } else {
      assert Filter(keep, all) + [] == Filter(keep, all);
    }
  }

  lemma DocumentsDropExtras(lib: Lib, cfg: Config, all: seq<Blob>, kept: seq<Blob>)
    requires GitTree(all) && TypesInside(cfg) && ExtrasOutside(cfg) && cfg.apiEnabled
    requires forall b :: b in kept ==> b in all
    ensures DocumentsOf(lib, cfg, kept + Extras(all, cfg.additional)) == DocumentsOf(lib, cfg, kept)
  {
    var dirs := TypeByDir(cfg, cfg.types);
    var inType := (b: Blob) => Dir(b.path) in dirs;
    forall b | b in all && inType(b) ensures UnderDir(b.path, CleanRepoDir(cfg.docsDir)) {
      DocumentUnderTypeDir(cfg, b.path);
    }
    ExtrasNotCandidates(cfg, all, inType);
    FilterConcat(inType, kept, Extras(all, cfg.additional));
    assert Filter(inType, kept) + [] == Filter(inType, kept);
    CollectFilter(lib, dirs, inType, kept + Extras(all, cfg.additional));
    CollectFilter(lib, dirs, inType, kept);
  }
}
