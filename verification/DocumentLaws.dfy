/** Which blobs become documents, which types rows are desired, and when a build fails, from the config and the
    files alone. */
module DocumentLaws {
  import opened Text
  import opened Seqs
  import opened RepoPath
  import opened Config
  import opened Documents
  import opened Tables

  // ---------------------------------------------------------------- from the config and one file

  /** The file sits directly in an enabled type's directory. */
  predicate Typed(cfg: Config, p: string) {
    exists i :: 0 <= i < |cfg.types| && JoinPath(cfg.docsDir, cfg.types[i].dir) == Dir(p)
  }

  /** The last of the types with this directory. */
  predicate LastWithDir(cfg: Config, types: seq<TypeConfig>, dir: string, i: nat) {
    && i < |types| && JoinPath(cfg.docsDir, types[i].dir) == dir
    && forall j :: i < j < |types| ==> JoinPath(cfg.docsDir, types[j].dir) != dir
  }

  /** The last enabled type whose directory that is. */
  predicate LastType(cfg: Config, p: string, i: nat) {
    LastWithDir(cfg, cfg.types, Dir(p), i)
  }

  /** Its bytes cannot be made a document: bad frontmatter, or a date that is there and does not parse. */
  predicate Broken(lib: Lib, content: Content, error: string) {
    match lib.frontmatter(content)
    case NoFrontmatter => false
    case Malformed(e) => error == e
    case Fields(fm) => fm.created != "" && lib.date(fm.created).None? && error == "parse created"
  }

  predicate FailsBuild(lib: Lib, cfg: Config, b: Blob, error: string) {
    Typed(cfg, b.path) && Broken(lib, b.content, error)
  }

  /** The files that should become documents. */
  function Wanted(lib: Lib, cfg: Config): Blob -> bool {
    (b: Blob) => Typed(cfg, b.path) && lib.frontmatter(b.content).Fields?
  }

  /** Column by column, the document of one file. */
  ghost predicate DocumentFrom(lib: Lib, cfg: Config, b: Blob, d: DocInput) {
    && lib.frontmatter(b.content).Fields?
    && var fm := lib.frontmatter(b.content).fm;
    && (exists i: nat :: LastType(cfg, b.path, i) && d.docType == cfg.types[i].name)
    && d.docID == fm.id && d.title == fm.title && d.status == fm.status && d.author == fm.author
    && (d.created.None? <==> fm.created == "" || lib.date(fm.created) == Some(0))
    && (d.created.Some? ==> d.created == lib.date(fm.created))
    && d.path == b.path && d.gitSHA == b.sha && d.contentHash == lib.hash(b.content) && d.rawMD == b.content
  }

  /** The path is the directory, a slash and a name without one. */
  predicate JustBelow(p: string, dir: string) {
    |p| > |dir| + 1 && p[..|dir|] == dir && p[|dir|] == '/' && '/' !in p[|dir| + 1..]
  }

  lemma JustBelowSplits(p: string, dir: string)
    requires JustBelow(p, dir)
    ensures p == dir + "/" + p[|dir| + 1..]
  {
  }

  lemma JoinIsJustBelow(dir: string, name: string)
    requires name != "" && '/' !in name
    ensures JustBelow(dir + "/" + name, dir)
  {
    assert (dir + "/" + name)[|dir| + 1..] == name;
  }

  /** For plain paths that is what sitting directly in a directory means. */
  lemma DirectlyIn(p: string, dir: string)
    requires CleanRel(p) && CleanRel(dir)
    ensures Dir(p) == dir <==> JustBelow(p, dir)
  {
    CleanRelHead(dir);
    if JustBelow(p, dir) {
      JustBelowSplits(p, dir);
      DirBaseOf(dir, p[|dir| + 1..]);
    } else if Dir(p) == dir {
      DirBase(p);
      CleanRelHead(Base(p));
      JoinIsJustBelow(dir, Base(p));
    }
  }

  // ---------------------------------------------------------------- one file

  lemma {:induction false} TypeByDirHas(cfg: Config, types: seq<TypeConfig>, dir: string)
    ensures dir in TypeByDir(cfg, types) <==> exists i :: 0 <= i < |types| && JoinPath(cfg.docsDir, types[i].dir) == dir
  {
    if types != [] {
      var n := |types| - 1;
      assert forall i :: 0 <= i < n ==> types[..n][i] == types[i];
      TypeByDirHas(cfg, types[..n], dir);
    }
  }

  lemma LastInInit(cfg: Config, types: seq<TypeConfig>, dir: string, i: nat)
    requires LastWithDir(cfg, types, dir, i) && i < |types| - 1
    ensures LastWithDir(cfg, types[..|types| - 1], dir, i) && TypeDir(cfg, types[|types| - 1]) != dir
  {
  }

  lemma {:induction false} TypeByDirAt(cfg: Config, types: seq<TypeConfig>, dir: string, i: nat)
    requires LastWithDir(cfg, types, dir, i)
    ensures dir in TypeByDir(cfg, types) && TypeByDir(cfg, types)[dir] == types[i].name
    decreases |types|
  {
    if i < |types| - 1 {
      LastInInit(cfg, types, dir, i);
      TypeByDirAt(cfg, types[..|types| - 1], dir, i);
    }
  }

  lemma {:induction false} LastTypeOf(cfg: Config, p: string, n: nat) returns (i: nat)
    requires n <= |cfg.types| && exists i :: 0 <= i < n && JoinPath(cfg.docsDir, cfg.types[i].dir) == Dir(p)
    requires forall j :: n <= j < |cfg.types| ==> JoinPath(cfg.docsDir, cfg.types[j].dir) != Dir(p)
    ensures LastType(cfg, p, i)
  {
    if JoinPath(cfg.docsDir, cfg.types[n - 1].dir) == Dir(p) {
      i := n - 1;
    } else {
      i := LastTypeOf(cfg, p, n - 1);
    }
  }

  lemma TypeOfFile(cfg: Config, p: string)
    ensures Dir(p) in TypeByDir(cfg, cfg.types) <==> Typed(cfg, p)
    ensures Typed(cfg, p) ==> exists i: nat :: LastType(cfg, p, i) && TypeByDir(cfg, cfg.types)[Dir(p)] == cfg.types[i].name
  {
    TypeByDirHas(cfg, cfg.types, Dir(p));
    if Typed(cfg, p) {
      var i := LastTypeOf(cfg, p, |cfg.types|);
      TypeByDirAt(cfg, cfg.types, Dir(p), i);
      assert TypeByDir(cfg, cfg.types)[Dir(p)] == cfg.types[i].name;
    }
  }

  lemma OneFile(lib: Lib, cfg: Config, b: Blob)
    ensures var r := DocumentOf(lib, TypeByDir(cfg, cfg.types), b);
            && (r.Err? <==> exists e :: FailsBuild(lib, cfg, b, e)) && (r.Err? ==> FailsBuild(lib, cfg, b, r.error))
            && (r.Ok? && !Wanted(lib, cfg)(b) ==> r.value == [])
            && (r.Ok? && Wanted(lib, cfg)(b) ==> |r.value| == 1 && DocumentFrom(lib, cfg, b, r.value[0]))
  {
    TypeOfFile(cfg, b.path);
    var r := DocumentOf(lib, TypeByDir(cfg, cfg.types), b);
    if r.Err? {
      assert FailsBuild(lib, cfg, b, r.error);
    }
  }

  // ---------------------------------------------------------------- the whole build

  ghost predicate Builds(lib: Lib, cfg: Config, b: Blob) {
    forall e :: !FailsBuild(lib, cfg, b, e)
  }

  /** Nothing before file i fails the build, and file i does. */
  ghost predicate FirstFailure(lib: Lib, cfg: Config, blobs: seq<Blob>, i: nat, error: string) {
    && i < |blobs| && FailsBuild(lib, cfg, blobs[i], error)
    && forall j, e :: 0 <= j < i ==> !FailsBuild(lib, cfg, blobs[j], e)
  }

  ghost predicate DocumentsFrom(lib: Lib, cfg: Config, files: seq<Blob>, docs: seq<DocInput>) {
    |docs| == |files| && forall k :: 0 <= k < |docs| ==> DocumentFrom(lib, cfg, files[k], docs[k])
  }

  lemma {:induction false} CollectFails(lib: Lib, cfg: Config, blobs: seq<Blob>)
    requires Collect(lib, TypeByDir(cfg, cfg.types), blobs).Err?
    ensures exists i: nat :: FirstFailure(lib, cfg, blobs, i, Collect(lib, TypeByDir(cfg, cfg.types), blobs).error)
  {
    var n := |blobs| - 1;
    var init, last := blobs[..n], blobs[n];
    assert blobs == init + [last];
    var r := Collect(lib, TypeByDir(cfg, cfg.types), init);
    if r.Err? {
      CollectFails(lib, cfg, init);
      FailsLater(lib, cfg, init, last, r.error);
    } else {
      OneFile(lib, cfg, last);
      CollectSucceeds(lib, cfg, init);
      FailsNow(lib, cfg, blobs, DocumentOf(lib, TypeByDir(cfg, cfg.types), last).error);
    }
  }

  lemma FailsNow(lib: Lib, cfg: Config, blobs: seq<Blob>, error: string)
    requires blobs != [] && FailsBuild(lib, cfg, blobs[|blobs| - 1], error)
    requires forall b :: b in blobs[..|blobs| - 1] ==> Builds(lib, cfg, b)
    ensures exists i: nat :: FirstFailure(lib, cfg, blobs, i, error)
  {
    var n := |blobs| - 1;
    assert forall j :: 0 <= j < n ==> blobs[j] in blobs[..n] && Builds(lib, cfg, blobs[j]);
    assert FirstFailure(lib, cfg, blobs, n, error);
  }

  lemma {:induction false} CollectSucceeds(lib: Lib, cfg: Config, blobs: seq<Blob>)
    requires Collect(lib, TypeByDir(cfg, cfg.types), blobs).Ok?
    ensures forall b :: b in blobs ==> Builds(lib, cfg, b)
  {
    if blobs != [] {
      var n := |blobs| - 1;
      CollectSucceeds(lib, cfg, blobs[..n]);
      OneFile(lib, cfg, blobs[n]);
      assert forall b :: b in blobs <==> b in blobs[..n] || b == blobs[n];
    }
  }

  lemma {:induction false} CollectMakes(lib: Lib, cfg: Config, blobs: seq<Blob>)
    requires Collect(lib, TypeByDir(cfg, cfg.types), blobs).Ok?
    ensures DocumentsFrom(lib, cfg, Filter(Wanted(lib, cfg), blobs), Collect(lib, TypeByDir(cfg, cfg.types), blobs).value)
  {
    if blobs != [] {
      var n := |blobs| - 1;
      CollectMakes(lib, cfg, blobs[..n]);
      OneFile(lib, cfg, blobs[n]);
    }
  }

  lemma FailsLater(lib: Lib, cfg: Config, init: seq<Blob>, last: Blob, error: string)
    requires exists i: nat :: FirstFailure(lib, cfg, init, i, error)
    ensures exists i: nat :: FirstFailure(lib, cfg, init + [last], i, error)
  {
    var i: nat :| FirstFailure(lib, cfg, init, i, error);
    var all := init + [last];
    assert forall j :: 0 <= j <= i ==> all[j] == init[j];
    assert FirstFailure(lib, cfg, all, i, error);
  }

  /** Exactly one document for each file that sits directly in an enabled type's directory and has frontmatter,
      in the order of the files, each of the last type with that directory; unless some file fails the build, and
      then with the error of the first one. */
  lemma OneDocumentPerFile(lib: Lib, cfg: Config, blobs: seq<Blob>)
    ensures var r := DocumentsOf(lib, cfg, blobs);
            && (r.Err? <==> exists b, e :: b in blobs && FailsBuild(lib, cfg, b, e))
            && (r.Err? ==> exists i: nat :: FirstFailure(lib, cfg, blobs, i, r.error))
            && (r.Ok? ==> DocumentsFrom(lib, cfg, Filter(Wanted(lib, cfg), blobs), r.value))
  {
    var r := DocumentsOf(lib, cfg, blobs);
    if r.Ok? {
      CollectSucceeds(lib, cfg, blobs);
      CollectMakes(lib, cfg, blobs);
    } else {
      CollectFails(lib, cfg, blobs);
      var i: nat :| FirstFailure(lib, cfg, blobs, i, r.error);
      assert blobs[i] in blobs && FailsBuild(lib, cfg, blobs[i], r.error);
    }
  }

  // ---------------------------------------------------------------- the types

  /** The last of the desired types with this name. */
  predicate LastNamed(types: seq<TypeConfig>, name: string, i: nat) {
    i < |types| && types[i].name == name && forall j :: i < j < |types| ==> types[j].name != name
  }

  /** Column by column, the doc_types row of one configured type. */
  predicate TypeRowFrom(t: TypeConfig, row: DocTypeInput) {
    && row.name == t.name && row.dir == t.dir && row.idPrefix == t.idPrefix && row.pluralLabel == t.pluralLabel
    && row.statuses == t.statuses && row.aliases == t.aliases
  }

  ghost predicate RowsOfTypes(types: seq<TypeConfig>, rows: map<string, DocTypeInput>) {
    && (forall name :: name in rows <==> exists i :: 0 <= i < |types| && types[i].name == name)
    && (forall i: nat :: i < |types| && LastNamed(types, types[i].name, i) ==> TypeRowFrom(types[i], rows[types[i].name]))
  }

  lemma RowsOneMore(init: seq<TypeConfig>, t: TypeConfig, rows: map<string, DocTypeInput>, row: DocTypeInput)
    requires RowsOfTypes(init, rows) && TypeRowFrom(t, row)
    ensures RowsOfTypes(init + [t], rows[t.name := row])
  {
    var types := init + [t];
    assert forall i :: 0 <= i < |init| ==> types[i] == init[i];
    assert types[|init|] == t;
    forall i: nat | i < |types| && LastNamed(types, types[i].name, i) ensures TypeRowFrom(types[i], rows[t.name := row][types[i].name]) {
      if i < |init| {
        assert types[|init|].name != types[i].name;
        assert LastNamed(init, init[i].name, i);
      }
    }
  }

  /** After a commit the doc_types rows of the repo are those of the enabled types, one per name; a name that is
      configured twice has the columns of the last. */
  lemma {:induction false} TypeRows(types: seq<TypeConfig>)
    ensures RowsOfTypes(types, TypesTable(DocTypesOf(types)))
  {
    if types != [] {
      var n := |types| - 1;
      TypeRows(types[..n]);
      assert DocTypesOf(types)[..n] == DocTypesOf(types[..n]);
      RowsOneMore(types[..n], types[n], TypesTable(DocTypesOf(types[..n])), DocTypesOf(types)[n]);
      assert types == types[..n] + [types[n]];
    }
  }
}
