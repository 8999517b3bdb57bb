/** ingest/service.go and mapper.go: the doc types and documents one set of fetched blobs yields. */
module Documents {
  import opened Text
  import opened Seqs
  import opened RepoPath
  import opened Config
  import opened Pages
  import PageLaws

  datatype DocTypeInput = DocTypeInput(
    name: string, dir: string, idPrefix: string, pluralLabel: string, statuses: seq<string>, aliases: seq<string>)

  datatype DocInput = DocInput(
    docType: string, docID: string, title: string, status: string, author: string, created: Option<int>,
    path: string, gitSHA: string, contentHash: string, rawMD: Content)

  function MapDocType(t: TypeConfig): DocTypeInput {
    DocTypeInput(t.name, t.dir, t.idPrefix, t.pluralLabel, t.statuses, t.aliases)
  }

  function DocTypesOf(types: seq<TypeConfig>): (r: seq<DocTypeInput>)
    ensures |r| == |types| && forall i :: 0 <= i < |r| ==> r[i] == MapDocType(types[i])
  {
    if types == [] then [] else DocTypesOf(types[..|types| - 1]) + [MapDocType(types[|types| - 1])]
  }

  method BuildDocTypes(cfg: Config) returns (types: seq<DocTypeInput>)
    ensures types == DocTypesOf(cfg.types)
  {
    types := [];
    for i := 0 to |cfg.types|
      invariant types == DocTypesOf(cfg.types[..i])
    {
      assert cfg.types[..i + 1][..i] == cfg.types[..i];
      types := types + [MapDocType(cfg.types[i])];
    }
    assert cfg.types[..|cfg.types|] == cfg.types;
  }

  /** The canonical type of each type directory; a later type takes a shared directory. */
  function TypeByDir(cfg: Config, types: seq<TypeConfig>): map<string, string> {
    if types == [] then map[]
    else
      var t := types[|types| - 1];
      TypeByDir(cfg, types[..|types| - 1])[TypeDir(cfg, t) := t.name]
  }

  function MapDocument(lib: Lib, typeName: string, blob: Blob, fm: Frontmatter): Result<DocInput> {
    if fm.created != "" && lib.date(fm.created).None? then Err("parse created")
    else Ok(DocInput(typeName, fm.id, fm.title, fm.status, fm.author,
                     DateOrNull(lib, fm.created),
                     blob.path, blob.sha, lib.hash(blob.content), blob.content))
  }

  /** What one blob contributes: no document, one document, or the error that fails the repo. */
  function DocumentOf(lib: Lib, typeByDir: map<string, string>, blob: Blob): Result<seq<DocInput>> {
    var dir := Dir(blob.path);
    if dir !in typeByDir then Ok([])
    else
      match lib.frontmatter(blob.content)
      case NoFrontmatter => Ok([])
      case Malformed(e) => Err(e)
      case Fields(fm) =>
        var d := MapDocument(lib, typeByDir[dir], blob, fm);
        if d.Ok? then Ok([d.value]) else Err(d.error)
  }

  function Collect(lib: Lib, typeByDir: map<string, string>, blobs: seq<Blob>): Result<seq<DocInput>> {
    if blobs == [] then Ok([])
    else
      var before := Collect(lib, typeByDir, blobs[..|blobs| - 1]);
      if before.Err? then before
      else
        var last := DocumentOf(lib, typeByDir, blobs[|blobs| - 1]);
        if last.Err? then last else Ok(before.value + last.value)
  }

  function DocumentsOf(lib: Lib, cfg: Config, blobs: seq<Blob>): Result<seq<DocInput>> {
    Collect(lib, TypeByDir(cfg, cfg.types), blobs)
  }

  lemma {:induction false} CollectErr(lib: Lib, typeByDir: map<string, string>, blobs: seq<Blob>, i: nat)
    requires i <= |blobs| && Collect(lib, typeByDir, blobs[..i]).Err?
    ensures Collect(lib, typeByDir, blobs) == Collect(lib, typeByDir, blobs[..i])
    decreases |blobs| - i
  {
    if i == |blobs| {
      assert blobs[..i] == blobs;
    } else {
      assert blobs[..i + 1][..i] == blobs[..i];
      CollectErr(lib, typeByDir, blobs, i + 1);
    }
  }

  method BuildDocuments(lib: Lib, cfg: Config, blobs: seq<Blob>) returns (r: Result<seq<DocInput>>)
    ensures r == DocumentsOf(lib, cfg, blobs)
  {
    var typeByDir: map<string, string> := map[];
    for i := 0 to |cfg.types|
      invariant typeByDir == TypeByDir(cfg, cfg.types[..i])
    {
      assert cfg.types[..i + 1][..i] == cfg.types[..i];
      typeByDir := typeByDir[TypeDir(cfg, cfg.types[i]) := cfg.types[i].name];
    }
    assert cfg.types[..|cfg.types|] == cfg.types;
    var docs: seq<DocInput> := [];
    for i := 0 to |blobs|
      invariant Collect(lib, typeByDir, blobs[..i]) == Ok(docs)
    {
      var blob := blobs[i];
      assert blobs[..i + 1][..i] == blobs[..i];
      var dir := Dir(blob.path);
      assert docs + [] == docs;
      if dir !in typeByDir {
        continue;
      }
      var parsed := lib.frontmatter(blob.content);
      if parsed.NoFrontmatter? {
        continue;
      }
      if parsed.Malformed? {
        CollectErr(lib, typeByDir, blobs, i + 1);
        return Err(parsed.error);
      }
      var doc := MapDocument(lib, typeByDir[dir], blob, parsed.fm);
      if doc.Err? {
        CollectErr(lib, typeByDir, blobs, i + 1);
        return Err(doc.error);
      }
      docs := docs + [doc.value];
    }
    assert blobs[..|blobs|] == blobs;
    return Ok(docs);
  }

  // ---------------------------------------------------------------- what a document comes from

  lemma {:induction false} TypeByDirKeys(cfg: Config, types: seq<TypeConfig>)
    ensures forall d :: d in TypeByDir(cfg, types) <==> exists t :: t in types && TypeDir(cfg, t) == d
  {
    if types != [] {
      var n := |types| - 1;
      TypeByDirKeys(cfg, types[..n]);
      assert forall t :: t in types <==> t in types[..n] || t == types[n];
    }
  }

  lemma {:induction false} CollectFrom(lib: Lib, typeByDir: map<string, string>, blobs: seq<Blob>)
    requires Collect(lib, typeByDir, blobs).Ok?
    ensures forall d :: d in Collect(lib, typeByDir, blobs).value ==>
              exists b :: b in blobs && b.path == d.path && Dir(b.path) in typeByDir && DocumentOf(lib, typeByDir, b) == Ok([d])
  {
    if blobs != [] {
      var n := |blobs| - 1;
      CollectFrom(lib, typeByDir, blobs[..n]);
      assert forall b :: b in blobs <==> b in blobs[..n] || b == blobs[n];
    }
  }

  /** Blobs outside every type directory can be dropped without changing the documents or the error. */
  lemma {:induction false} CollectFilter(lib: Lib, typeByDir: map<string, string>, keep: Blob -> bool, blobs: seq<Blob>)
    requires forall b :: b in blobs && Dir(b.path) in typeByDir ==> keep(b)
    ensures Collect(lib, typeByDir, Filter(keep, blobs)) == Collect(lib, typeByDir, blobs)
  {
    if blobs != [] {
      var n := |blobs| - 1;
      assert forall b :: b in blobs[..n] ==> b in blobs;
      assert blobs[n] in blobs;
      CollectFilter(lib, typeByDir, keep, blobs[..n]);
      var before := Filter(keep, blobs[..n]);
      if keep(blobs[n]) {
        assert (before + [blobs[n]])[..|before|] == before;
      } else {
        assert before + [] == before;
        var r := Collect(lib, typeByDir, blobs[..n]);
        assert r.Ok? ==> r.value + [] == r.value;
      }
    }
  }

  // ---------------------------------------------------------------- documents and pages are disjoint

  /** Every type directory lies in the directory the classifier cleans docs_dir to. */
  predicate TypesInside(cfg: Config) {
    forall t :: t in cfg.types ==> UnderDir(TypeDir(cfg, t), CleanRepoDir(cfg.docsDir))
  }

  /** No additional_docs entry of an enabled block does: docz's Validate refuses one that would. */
  predicate ExtrasOutside(cfg: Config) {
    cfg.apiEnabled ==> forall e :: e in cfg.additional ==> !UnderDir(e, CleanRepoDir(cfg.docsDir))
  }

  /** Plain type directories are inside for every docs_dir without outer blanks that cleans to a plain path,
      however it is spelled: "docs/", "./docs", "docs//" and "a/../docs" among them. */
  lemma PlainTypesInside(cfg: Config)
    requires CleanRel(CleanRepoDir(cfg.docsDir)) && TrimSpace(cfg.docsDir) == cfg.docsDir
    requires forall t :: t in cfg.types ==> CleanRel(t.dir)
    ensures TypesInside(cfg)
  {
    forall t | t in cfg.types ensures UnderDir(TypeDir(cfg, t), CleanRepoDir(cfg.docsDir)) {
      JoinBelowRepoDir(cfg.docsDir, t.dir);
      UnderDirIntro(CleanRepoDir(cfg.docsDir), t.dir);
    }
  }

  /** A document's file sits directly in its type directory, hence under docs_dir. */
  lemma DocumentUnderTypeDir(cfg: Config, p: string)
    requires TypesInside(cfg) && CleanRel(p) && Dir(p) in TypeByDir(cfg, cfg.types)
    ensures UnderDir(p, CleanRepoDir(cfg.docsDir)) && TypeDirOf(TypeDirs(cfg, cfg.types), p) != ""
  {
    TypeByDirKeys(cfg, cfg.types);
    var t :| t in cfg.types && TypeDir(cfg, t) == Dir(p);
    assert '/' in Dir(p) by {
      assert Dir(p)[|CleanRepoDir(cfg.docsDir)|] == '/';
    }
    DirBase(p);
    UnderDirIntro(Dir(p), Base(p));
    UnderDirTrans(p, Dir(p), CleanRepoDir(cfg.docsDir));
    CleanRelHead(p);
    var i :| 0 <= i < |cfg.types| && cfg.types[i] == t;
    assert TypeDirs(cfg, cfg.types)[i] in TypeDirs(cfg, cfg.types);
  }

  /** No file becomes both a document and a page. */
  lemma DocumentsAndPagesDisjoint(lib: Lib, cfg: Config, blobs: seq<Blob>, d: DocInput, pg: Page)
    requires TypesInside(cfg) && ExtrasOutside(cfg) && cfg.apiEnabled && forall b :: b in blobs ==> CleanRel(b.path)
    requires DocumentsOf(lib, cfg, blobs).Ok? && d in DocumentsOf(lib, cfg, blobs).value
    requires pg in PagesOf(lib, cfg, blobs)
    ensures d.path != pg.repoPath
  {
    CollectFrom(lib, TypeByDir(cfg, cfg.types), blobs);
    DocumentUnderTypeDir(cfg, d.path);
    var r := RulesOf(cfg);
    if pg in DocsPagesOf(lib, cfg, blobs) {
      PageLaws.DocsPagesIff(lib, r, Claims(r, blobs), blobs);
    } else {
      PageLaws.ExtraPaths(lib, ByPath(blobs), Paths(DocsPagesOf(lib, cfg, blobs)), cfg.additional);
      PageLaws.ByPathIs(blobs);
    }
  }
}
