/** The post-Load .docz.yaml, the fetched blobs, and the parts of the docz library the pipeline calls. */
module Config {
  import opened Text
  import opened RepoPath

  type Content = string

  datatype Frontmatter = Frontmatter(id: string, title: string, status: string, author: string, created: string)

  datatype Parsed = NoFrontmatter | Malformed(error: string) | Fields(fm: Frontmatter)

  /** The library calls whose bodies are elsewhere: any functions of these shapes will do.
      `hash` is hex sha256, `fallback` the title made from a basename, `date` the frontmatter date parser, whose day 0
      is Go's zero time. */
  datatype Lib = Lib(
    hash: Content -> string,
    title: Content -> string,
    fallback: string -> string,
    isDocz: string -> bool,
    frontmatter: Content -> Parsed,
    date: string -> Option<int>)

  /** A frontmatter date as it is stored: an empty one is null, and so is the zero time. */
  function DateOrNull(lib: Lib, created: string): Option<int> {
    if created == "" || lib.date(created) == Some(0) then None else lib.date(created)
  }

  /** One enabled type; `aliases` and `statuses` are the lists the store keeps as JSON. */
  datatype TypeConfig = TypeConfig(
    name: string, dir: string, idPrefix: string, pluralLabel: string,
    statuses: seq<string>, aliases: seq<string>)

  /** `types` are the enabled types, in EnabledTypes order. */
  datatype Config = Config(
    docsDir: string,
    types: seq<TypeConfig>,
    changelogEnabled: bool,
    changelogFile: string,
    apiEnabled: bool,
    landing: string,
    exclude: seq<string>,
    additional: seq<string>)

  datatype Blob = Blob(path: string, sha: string, content: Content)

  const README_NAME := "README.md"
  const LANDING_NAME := "index.md"
  const TEMPLATES_DIR := "templates"
  const CONFIG_FILE := ".docz.yaml"

  function TypeDir(cfg: Config, t: TypeConfig): string {
    JoinPath(cfg.docsDir, t.dir)
  }

  function TypeDirs(cfg: Config, types: seq<TypeConfig>): (dirs: seq<string>)
    ensures |dirs| == |types|
    ensures forall i :: 0 <= i < |dirs| ==> dirs[i] == TypeDir(cfg, types[i])
  {
    if types == [] then []
    else TypeDirs(cfg, types[..|types| - 1]) + [TypeDir(cfg, types[|types| - 1])]
  }

  predicate DistinctPaths(blobs: seq<Blob>) {
    forall i, j :: 0 <= i < j < |blobs| ==> blobs[i].path != blobs[j].path
  }

  /** What every git tree satisfies: one blob per path, plain paths, and no file that is also a directory. */
  predicate GitTree(blobs: seq<Blob>) {
    && DistinctPaths(blobs)
    && (forall b :: b in blobs ==> CleanRel(b.path))
    && (forall b, c :: b in blobs && c in blobs ==> !UnderDir(b.path, c.path))
  }

  predicate HasPath(blobs: seq<Blob>, p: string) {
    exists b :: b in blobs && b.path == p
  }
}
