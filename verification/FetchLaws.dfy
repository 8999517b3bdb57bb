/** What the fetch asks for, when it succeeds and what it then holds, from the tree and the keys of .docz.yaml. */
module FetchLaws {
  import opened Text
  import opened Seqs
  import opened RepoPath
  import opened Config
  import opened Fetch

  // ---------------------------------------------------------------- the hints, from the decoded keys

  /** One normalised entry; an exclude entry loses one trailing slash. */
  ghost predicate EntryNormalises(value: string, r: string, prefixes: bool) {
    exists x :: Normalises(value, x) && r == if prefixes && HasSuffix(x, "/") then x[..|x| - 1] else x
  }

  function NonBlank(): string -> bool {
    (e: string) => e != ""
  }

  /** The entries normalised one by one, in order, and the empty ones left out. */
  ghost predicate ListNormalises(entries: seq<string>, list: seq<string>, prefixes: bool) {
    exists full: seq<string> ::
      && |full| == |entries| && (forall i :: 0 <= i < |full| ==> EntryNormalises(entries[i], full[i], prefixes))
      && list == Filter(NonBlank(), full)
  }

  function EntryOf(value: string, prefixes: bool): string {
    if prefixes then TrimSuffix(HintOf(value), "/") else HintOf(value)
  }

  lemma EntryIs(value: string, prefixes: bool)
    ensures EntryNormalises(value, EntryOf(value, prefixes), prefixes)
  {
    NormalisesIs(value);
    assert Normalises(value, HintOf(value));
  }

  function EntriesOf(entries: seq<string>, prefixes: bool): (full: seq<string>)
    ensures |full| == |entries| && forall i :: 0 <= i < |full| ==> full[i] == EntryOf(entries[i], prefixes)
  {
    if entries == [] then [] else EntriesOf(entries[..|entries| - 1], prefixes) + [EntryOf(entries[|entries| - 1], prefixes)]
  }

  lemma {:induction false} HintListFilters(entries: seq<string>, prefixes: bool)
    ensures HintList(entries, prefixes) == Filter(NonBlank(), EntriesOf(entries, prefixes))
  {
    if entries != [] {
      var n := |entries| - 1;
      HintListFilters(entries[..n], prefixes);
      var full := EntriesOf(entries, prefixes);
      assert full[..n] == EntriesOf(entries[..n], prefixes) && full[n] == EntryOf(entries[n], prefixes);
    }
  }

  lemma HintListIs(entries: seq<string>, prefixes: bool)
    ensures ListNormalises(entries, HintList(entries, prefixes), prefixes)
  {
    var full := EntriesOf(entries, prefixes);
    HintListFilters(entries, prefixes);
    forall i | 0 <= i < |full| ensures EntryNormalises(entries[i], full[i], prefixes) {
      EntryIs(entries[i], prefixes);
    }
  }

  /** A file that does not decode leaves docz's defaults and a switched-off block. One that does gives: the docs_dir
      it sets, normalised, less one trailing slash; its changelog switch and file; and its api block, whose two lists
      hold the normalised entries of their own keys. */
  lemma HintsAre(y: Yaml, config: Content)
    ensures y.decode(config).None? ==>
              DocsDirHintOf(y, config) == y.docsDir && !ApiHintOf(y, config).enabled
              && ChangelogHint(y, config) == (y.changelogEnabled, y.changelogFile)
    ensures y.decode(config).Some? ==>
              var raw, api := y.decode(config).value, ApiHintOf(y, config);
              && (raw.docsDir == "" ==> DocsDirHintOf(y, config) == y.docsDir)
              && (raw.docsDir != "" ==> EntryNormalises(raw.docsDir, DocsDirHintOf(y, config), true))
              && api.enabled == raw.apiEnabled && Normalises(raw.landing, api.landing)
              && ListNormalises(raw.exclude, api.exclude, true) && ListNormalises(raw.additional, api.additional, false)
  {
    if y.decode(config).Some? {
      var raw := y.decode(config).value;
      EntryIs(raw.docsDir, true);
      NormalisesIs(raw.landing);
      HintListIs(raw.exclude, true);
      HintListIs(raw.additional, false);
    }
  }

  /** The changelog's path loses its outer blanks and at most one leading "./"; an empty one is docz's default. */
  lemma ChangelogIs(y: Yaml, config: Content)
    requires y.decode(config).Some?
    ensures var raw, hint := y.decode(config).value, ChangelogHint(y, config);
            hint.0 == raw.changelogEnabled
            && exists t, f :: Trims(raw.changelogFile, t) && (t == "./" + f || (t == f && !HasPrefix(t, "./")))
                 && hint.1 == if f == "" then y.changelogFile else f
  {
    var raw := y.decode(config).value;
    var t := TrimSpace(raw.changelogFile);
    TrimSpaceIs(raw.changelogFile);
    var f := if HasPrefix(t, "./") then t[2..] else t;
    assert Trims(raw.changelogFile, t) && (t == "./" + f || (t == f && !HasPrefix(t, "./")));
  }

  // ---------------------------------------------------------------- the listing

  /** What a git tree's listing satisfies: one entry per file path, each with a sha. */
  predicate PlainListing(tree: seq<TreeEntry>) {
    && (forall e :: e in tree && e.kind == BlobEntry ==> e.sha != "")
    && forall e, f :: e in tree && f in tree && e.kind == BlobEntry && f.kind == BlobEntry && e.path == f.path ==> e == f
  }

  lemma FindIs(tree: seq<TreeEntry>, p: string)
    requires PlainListing(tree)
    ensures FindBlobSHA(tree, p) == "" <==> forall e :: !FileEntry(tree, p, e)
    ensures forall e :: FileEntry(tree, p, e) ==> FindBlobSHA(tree, p) == e.sha
  {
    FindEntry(tree, p);
    if FindBlobSHA(tree, p) == "" {
      forall e ensures !FileEntry(tree, p, e) {
        assert e in tree && e.kind == BlobEntry && e.path == p ==> e.sha != "";
      }
    } else {
      var e :| e in tree && e.kind == BlobEntry && e.path == p && e.sha == FindBlobSHA(tree, p);
      assert FileEntry(tree, p, e);
    }
  }

  lemma {:induction false} ReadAllIs(objects: map<string, Content>, entries: seq<TreeEntry>)
    ensures ReadAll(objects, entries).Ok? <==> forall e :: e in entries ==> e.sha in objects
    ensures ReadAll(objects, entries).Ok? ==> Holds(objects, entries, ReadAll(objects, entries).value)
  {
    if entries != [] {
      var n := |entries| - 1;
      ReadAllIs(objects, entries[..n]);
      assert forall e :: e in entries <==> e in entries[..n] || e == entries[n];
    }
  }

  /** The blobs are those of the entries, one each, in order. */
  predicate Holds(objects: map<string, Content>, entries: seq<TreeEntry>, blobs: seq<Blob>) {
    && |blobs| == |entries|
    && forall k :: 0 <= k < |blobs| ==>
         entries[k].sha in objects && blobs[k] == Blob(entries[k].path, entries[k].sha, objects[entries[k].sha])
  }

  // ---------------------------------------------------------------- what is requested

  /** The files fetched for their content: docz-named ones and, for an enabled block, markdown below docs_dir. */
  function Selected(lib: Lib, docsDir: string, apiEnabled: bool): TreeEntry -> bool {
    (e: TreeEntry) => e.kind == BlobEntry
      && (lib.isDocz(Base(e.path)) || (apiEnabled && docsDir + "/" <= e.path && HasSuffix(e.path, ".md")))
  }

  lemma SelectedIs(lib: Lib, docsDir: string, apiEnabled: bool, tree: seq<TreeEntry>)
    ensures Filter(KeepEntry(lib.isDocz, docsDir, apiEnabled), tree) == Filter(Selected(lib, docsDir, apiEnabled), tree)
  {
    FilterSame(KeepEntry(lib.isDocz, docsDir, apiEnabled), Selected(lib, docsDir, apiEnabled), tree);
  }

  /** The additional_docs entries that are markdown files of the tree. */
  function Present(tree: seq<TreeEntry>): string -> bool {
    (p: string) => HasSuffix(p, ".md") && exists e :: e in tree && e.kind == BlobEntry && e.path == p
  }

  predicate EntriesAt(tree: seq<TreeEntry>, paths: seq<string>, entries: seq<TreeEntry>) {
    |entries| == |paths| && forall k :: 0 <= k < |entries| ==> FileEntry(tree, paths[k], entries[k])
  }

  lemma {:induction false} ExtraEntriesAre(tree: seq<TreeEntry>, paths: seq<string>)
    requires PlainListing(tree)
    ensures EntriesAt(tree, Filter(Present(tree), paths), ExtraEntries(tree, paths))
  {
    if paths != [] {
      var p := paths[|paths| - 1];
      ExtraEntriesAre(tree, paths[..|paths| - 1]);
      FindIs(tree, p);
      if Present(tree)(p) {
        var e :| e in tree && e.kind == BlobEntry && e.path == p;
        assert FileEntry(tree, p, e);
        assert e == TreeEntry(BlobEntry, p, FindBlobSHA(tree, p));
      } else {
        assert HasSuffix(p, ".md") ==> forall e :: !FileEntry(tree, p, e);
      }
    }
  }

  /** Where the repo home is read from: docs_dir's index.md, unless an enabled block names another page. */
  function HomePath(docsDir: string, api: ApiHints): string {
    if api.enabled && api.landing != "" then api.landing else JoinPath(docsDir, "index.md")
  }

  /** Every file the fetch requests once it has read the config. */
  predicate Requested(lib: Lib, y: Yaml, tree: seq<TreeEntry>, config: Content, e: TreeEntry) {
    var d, api, changelog := DocsDirHintOf(y, config), ApiHintOf(y, config), ChangelogHint(y, config);
    && e in tree && e.kind == BlobEntry
    && (|| (changelog.0 && e.path == changelog.1)
        || e.path == HomePath(d, api)
        || Selected(lib, d, api.enabled)(e)
        || (api.enabled && e.path in api.additional && HasSuffix(e.path, ".md")))
  }

  /** The head resolved, its tree is whole, .docz.yaml is in it, and every file requested can be read. */
  ghost predicate Fetchable(lib: Lib, y: Yaml, r: Remote) {
    && r.failure.None? && !r.truncated
    && exists c :: FileEntry(r.tree, ".docz.yaml", c) && c.sha in r.objects
         && forall e :: Requested(lib, y, r.tree, r.objects[c.sha], e) ==> e.sha in r.objects
  }

  // ---------------------------------------------------------------- one optional file

  /** The file at p as cached on the repo row: its bytes and sha, or both empty when it is not there. */
  predicate Cached(r: Remote, p: string, content: Content, sha: string) {
    if exists e :: e in r.tree && e.kind == BlobEntry && e.path == p
    then exists e :: e in r.tree && e.kind == BlobEntry && e.path == p && e.sha in r.objects && content == r.objects[e.sha] && sha == e.sha
    else content == "" && sha == ""
  }

  lemma OptionalIs(r: Remote, p: string)
    requires PlainListing(r.tree)
    ensures ReadOptional(r, p).Ok? <==> forall e :: FileEntry(r.tree, p, e) ==> e.sha in r.objects
    ensures ReadOptional(r, p).Ok? ==> Cached(r, p, ReadOptional(r, p).value.0, ReadOptional(r, p).value.1)
  {
    FindIs(r.tree, p);
    if e :| FileEntry(r.tree, p, e) {
      assert FindBlobSHA(r.tree, p) == e.sha;
    }
  }

  // ---------------------------------------------------------------- the whole fetch

  /** What a successful fetch holds. */
  ghost predicate SnapshotOf(lib: Lib, y: Yaml, r: Remote, s: Snapshot) {
    var d, api, changelog := DocsDirHintOf(y, s.configYAML), ApiHintOf(y, s.configYAML), ChangelogHint(y, s.configYAML);
    && s.head == r.head && s.branch == r.branch
    && (exists c :: FileEntry(r.tree, ".docz.yaml", c) && c.sha in r.objects && s.configYAML == r.objects[c.sha])
    && (if changelog.0 then Cached(r, changelog.1, s.changelogMD, s.changelogSHA) else s.changelogMD == "" && s.changelogSHA == "")
    && Cached(r, HomePath(d, api), s.indexMD, s.indexSHA)
    && exists docs, extra, entries ::
         && s.blobs == docs + extra
         && Holds(r.objects, Filter(Selected(lib, d, api.enabled), r.tree), docs)
         && EntriesAt(r.tree, if api.enabled then Filter(Present(r.tree), api.additional) else [], entries)
         && Holds(r.objects, entries, extra)
  }

  /** The four reads that follow the config's. */
  predicate AllRead(lib: Lib, y: Yaml, r: Remote, config: Content) {
    var d, api, changelog := DocsDirHintOf(y, config), ApiHintOf(y, config), ChangelogHint(y, config);
    && (changelog.0 ==> ReadOptional(r, changelog.1).Ok?)
    && ReadOptional(r, LandingPath(d, api)).Ok?
    && ReadAll(r.objects, Filter(KeepEntry(lib.isDocz, d, api.enabled), r.tree)).Ok?
    && (api.enabled ==> ReadAll(r.objects, ExtraEntries(r.tree, api.additional)).Ok?)
  }

  lemma SucceedsWhenRead(lib: Lib, y: Yaml, r: Remote, c: TreeEntry)
    requires PlainListing(r.tree) && r.failure.None? && !r.truncated && FileEntry(r.tree, CONFIG_FILE, c) && c.sha in r.objects
    ensures FetchOf(lib, y, r).Ok? <==> AllRead(lib, y, r, r.objects[c.sha])
    ensures FetchOf(lib, y, r).Ok? ==> FetchOf(lib, y, r).value.configYAML == r.objects[c.sha]
  {
    FindIs(r.tree, CONFIG_FILE);
  }

  lemma FailsEarly(lib: Lib, y: Yaml, r: Remote)
    requires PlainListing(r.tree)
    requires r.failure.Some? || r.truncated || forall c :: FileEntry(r.tree, CONFIG_FILE, c) ==> c.sha !in r.objects
    ensures FetchOf(lib, y, r).Err?
  {
    FindIs(r.tree, CONFIG_FILE);
    if c :| FileEntry(r.tree, CONFIG_FILE, c) {
      assert FindBlobSHA(r.tree, CONFIG_FILE) == c.sha;
    }
  }

  lemma ExtrasReadable(r: Remote, paths: seq<string>)
    requires PlainListing(r.tree)
    ensures ReadAll(r.objects, ExtraEntries(r.tree, paths)).Ok? <==>
            forall e :: e in r.tree && e.kind == BlobEntry && e.path in paths && HasSuffix(e.path, ".md") ==> e.sha in r.objects
  {
    var entries, present := ExtraEntries(r.tree, paths), Filter(Present(r.tree), paths);
    ReadAllIs(r.objects, entries);
    ExtraEntriesAre(r.tree, paths);
    FilterIn(Present(r.tree), paths);
    forall e | e in entries ensures e in r.tree && e.kind == BlobEntry && e.path in paths && HasSuffix(e.path, ".md") {
      var k :| 0 <= k < |entries| && entries[k] == e;
      assert FileEntry(r.tree, present[k], e) && present[k] in present;
    }
    forall e | e in r.tree && e.kind == BlobEntry && e.path in paths && HasSuffix(e.path, ".md") ensures e in entries {
      assert e.path in present;
      var k :| 0 <= k < |present| && present[k] == e.path;
      assert FileEntry(r.tree, present[k], entries[k]);
    }
  }

  /** The four reads succeed exactly when every file requested can be read. */
  lemma RequestsReadable(lib: Lib, y: Yaml, r: Remote, config: Content)
    requires PlainListing(r.tree)
    ensures AllRead(lib, y, r, config) <==> forall e :: Requested(lib, y, r.tree, config, e) ==> e.sha in r.objects
  {
    var d, api, changelog := DocsDirHintOf(y, config), ApiHintOf(y, config), ChangelogHint(y, config);
    OptionalIs(r, changelog.1);
    OptionalIs(r, HomePath(d, api));
    assert LandingPath(d, api) == HomePath(d, api);
    SelectedIs(lib, d, api.enabled, r.tree);
    ReadAllIs(r.objects, Filter(Selected(lib, d, api.enabled), r.tree));
    FilterIn(Selected(lib, d, api.enabled), r.tree);
    ExtrasReadable(r, api.additional);
  }

  /** The fetch succeeds if and only if the head resolves, its tree is whole, .docz.yaml is in it and every file it
      requests can be read. A truncated tree is an error, never a smaller repository. */
  lemma SucceedsIff(lib: Lib, y: Yaml, r: Remote)
    requires PlainListing(r.tree)
    ensures FetchOf(lib, y, r).Ok? <==> Fetchable(lib, y, r)
  {
    if r.failure.None? && !r.truncated && exists c :: FileEntry(r.tree, CONFIG_FILE, c) && c.sha in r.objects {
      var c :| FileEntry(r.tree, CONFIG_FILE, c) && c.sha in r.objects;
      SucceedsWhenRead(lib, y, r, c);
      RequestsReadable(lib, y, r, r.objects[c.sha]);
      assert forall x :: FileEntry(r.tree, ".docz.yaml", x) ==> x == c;
    } else {
      FailsEarly(lib, y, r);
    }
  }

  lemma FetchedParts(lib: Lib, y: Yaml, r: Remote)
    requires FetchOf(lib, y, r).Ok?
    ensures var f := FetchOf(lib, y, r).value;
            var changelog := ChangelogHint(y, f.configYAML);
            var index := ReadOptional(r, LandingPath(DocsDirHintOf(y, f.configYAML), ApiHintOf(y, f.configYAML)));
            && f.head == r.head && f.branch == r.branch
            && (changelog.0 ==> ReadOptional(r, changelog.1) == Ok((f.changelogMD, f.changelogSHA)))
            && (!changelog.0 ==> f.changelogMD == "" && f.changelogSHA == "")
            && index == Ok((f.indexMD, f.indexSHA))
            && exists c :: FileEntry(r.tree, CONFIG_FILE, c) && c.sha in r.objects && f.configYAML == r.objects[c.sha]
  {
    FindEntry(r.tree, CONFIG_FILE);
    var c :| c in r.tree && c.kind == BlobEntry && c.path == CONFIG_FILE && c.sha == FindBlobSHA(r.tree, CONFIG_FILE);
    assert FileEntry(r.tree, CONFIG_FILE, c);
  }

  lemma FetchedFiles(lib: Lib, y: Yaml, r: Remote)
    requires FetchOf(lib, y, r).Ok?
    ensures var f := FetchOf(lib, y, r).value;
            var d, api := DocsDirHintOf(y, f.configYAML), ApiHintOf(y, f.configYAML);
            var docs := ReadAll(r.objects, Filter(KeepEntry(lib.isDocz, d, api.enabled), r.tree));
            var extra := if api.enabled then ReadAll(r.objects, ExtraEntries(r.tree, api.additional)) else Ok([]);
            docs.Ok? && extra.Ok? && f.blobs == docs.value + extra.value
  {
  }

  /** And what it then holds: the head, the config's bytes, the changelog when its block is on, the repo home, and as
      blobs the selected files in listing order followed by the additional_docs files that are there. */
  lemma HoldsTheFiles(lib: Lib, y: Yaml, r: Remote)
    requires PlainListing(r.tree) && FetchOf(lib, y, r).Ok?
    ensures SnapshotOf(lib, y, r, FetchOf(lib, y, r).value)
  {
    var s := FetchOf(lib, y, r).value;
    var d, api, changelog := DocsDirHintOf(y, s.configYAML), ApiHintOf(y, s.configYAML), ChangelogHint(y, s.configYAML);
    FetchedParts(lib, y, r);
    FetchedFiles(lib, y, r);
    OptionalIs(r, changelog.1);
    OptionalIs(r, HomePath(d, api));
    assert LandingPath(d, api) == HomePath(d, api);
    BlobsHeld(lib, r, d, api);
  }

  lemma BlobsHeld(lib: Lib, r: Remote, d: string, api: ApiHints)
    requires PlainListing(r.tree)
    ensures var docs := ReadAll(r.objects, Filter(KeepEntry(lib.isDocz, d, api.enabled), r.tree));
            docs.Ok? ==> Holds(r.objects, Filter(Selected(lib, d, api.enabled), r.tree), docs.value)
    ensures var extra := if api.enabled then ReadAll(r.objects, ExtraEntries(r.tree, api.additional)) else Ok([]);
            extra.Ok? ==> exists entries ::
              && EntriesAt(r.tree, if api.enabled then Filter(Present(r.tree), api.additional) else [], entries)
              && Holds(r.objects, entries, extra.value)
  {
    SelectedIs(lib, d, api.enabled, r.tree);
    ReadAllIs(r.objects, Filter(Selected(lib, d, api.enabled), r.tree));
    if api.enabled {
      ExtraEntriesAre(r.tree, api.additional);
      ReadAllIs(r.objects, ExtraEntries(r.tree, api.additional));
    } else {
      var none: seq<TreeEntry> := [];
      assert EntriesAt(r.tree, [], none) && Holds(r.objects, none, []);
    }
  }
}
