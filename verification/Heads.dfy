/** The desired state of a readable head, in terms of its whole tree. */
module Heads {
  import opened Text
  import opened Seqs
  import opened RepoPath
  import opened Config
  import opened Pages
  import opened Documents
  import opened Fetch
  import FetchLaws
  import opened Prefilter
  import opened Tables
  import opened Service

  function FileAt(blobs: seq<Blob>, p: string): (Content, string) {
    match At(blobs, p)
    case None => ("", "")
    case Some(b) => (b.content, b.sha)
  }

  function LandingFile(cfg: Config): string {
    if cfg.apiEnabled then cfg.landing else JoinPath(DocsDirHint(cfg.docsDir), LANDING_NAME)
  }

  /** The head's tree is whole and readable, and its .docz.yaml loads to cfg with the hints agreeing. */
  predicate Configured(y: Yaml, load: Content -> Result<Config>, r: Remote, cfg: Config) {
    Whole(r) && load(ConfigText(r)) == Ok(cfg) && HintsAgree(y, ConfigText(r), cfg)
  }

  /** Type directories inside docs_dir, additional_docs outside, and for an enabled block the fetch's hint the
      classifier's directory. */
  predicate WellPlaced(cfg: Config) {
    TypesInside(cfg) && ExtrasOutside(cfg) && (cfg.apiEnabled ==> DocsDirHint(cfg.docsDir) == CleanRepoDir(cfg.docsDir))
  }

  lemma ReadFile(r: Remote, p: string)
    requires GoodTree(r)
    ensures ReadOptional(r, p) == Ok(FileAt(TreeBlobs(r), p))
  {
    ReadOptionalIs(r, p);
  }

  lemma FetchedFiles(lib: Lib, y: Yaml, load: Content -> Result<Config>, r: Remote, cfg: Config)
    requires Configured(y, load, r, cfg)
    ensures var all := TreeBlobs(r);
            var f := FetchOf(lib, y, r);
            && f.Ok? && f.value.head == r.head && f.value.branch == r.branch
            && (f.value.changelogMD, f.value.changelogSHA) == (if cfg.changelogEnabled then FileAt(all, cfg.changelogFile) else ("", ""))
            && (f.value.indexMD, f.value.indexSHA) == FileAt(all, LandingFile(cfg))
  {
    FetchedBlobs(lib, y, cfg, r);
    FetchLaws.FetchedParts(lib, y, r);
    ReadFile(r, cfg.changelogFile);
    ReadFile(r, LandingFile(cfg));
  }

  function KeptBlobs(lib: Lib, cfg: Config, all: seq<Blob>): seq<Blob> {
    Filter(KeepBlob(lib.isDocz, DocsDirHint(cfg.docsDir), cfg.apiEnabled), all)
  }

  lemma FetchedDocuments(lib: Lib, y: Yaml, load: Content -> Result<Config>, r: Remote, cfg: Config)
    requires Configured(y, load, r, cfg) && WellPlaced(cfg)
    ensures var all := TreeBlobs(r);
            var f := FetchOf(lib, y, r);
            && f.Ok? && load(f.value.configYAML) == Ok(cfg)
            && DocumentsOf(lib, cfg, f.value.blobs) == DocumentsOf(lib, cfg, KeptBlobs(lib, cfg, all))
            && PagesOf(lib, cfg, f.value.blobs) == PagesOf(lib, cfg, all)
  {
    FetchedBlobs(lib, y, cfg, r);
    PrefilterDocuments(lib, y, cfg, r);
    if cfg.apiEnabled {
      PrefilterKeepsPages(lib, y, cfg, r);
    }
  }

  /** What an ingest of a configured head wants: documents and pages of its tree, or the first bad document. */
  lemma DesiredOf(lib: Lib, y: Yaml, load: Content -> Result<Config>, r: Remote, cfg: Config, installation: int, l: Label)
    requires Configured(y, load, r, cfg) && WellPlaced(cfg)
    ensures var all := TreeBlobs(r);
            var d := Desired(lib, y, load, r, installation, l);
            var docs := DocumentsOf(lib, cfg, KeptBlobs(lib, cfg, all));
            && (docs.Err? ==> d == Err(docs.error))
            && (docs.Ok? ==>
                  && d.Ok? && d.value.docTypes == DocTypesOf(cfg.types) && d.value.documents == docs.value
                  && d.value.pages == PagesOf(lib, cfg, all) && LabelOf(d.value.repo) == l
                  && d.value.repo.lastSyncedSHA == r.head && d.value.repo.defaultBranch == r.branch
                  && d.value.repo.docsDir == cfg.docsDir && d.value.repo.config == cfg && d.value.repo.installation == installation
                  && (d.value.repo.changelogMD, d.value.repo.changelogSHA) ==
                     (if cfg.changelogEnabled then FileAt(all, cfg.changelogFile) else ("", ""))
                  && d.value.repo.changelogFile == ChangelogFile(cfg)
                  && (d.value.repo.indexMD, d.value.repo.indexSHA) == FileAt(all, LandingFile(cfg))
                  && (d.value.repo.apiLanding, d.value.repo.apiAdditional) == ApiFields(cfg))
  {
    FetchedFiles(lib, y, load, r, cfg);
    FetchedDocuments(lib, y, load, r, cfg);
  }

  function WithHead(d: Result<ReconcileInput>, head: string): Result<ReconcileInput> {
    match d
    case Err(e) => Err(e)
    case Ok(input) => Ok(input.(repo := input.repo.(lastSyncedSHA := head)))
  }
}
