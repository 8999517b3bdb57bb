/** githubapp/client.go: which blobs of a tree are fetched, from a hint-level read of .docz.yaml. */
module Fetch {
  import opened Text
  import opened Seqs
  import opened RepoPath
  import opened Config

  datatype Kind = BlobEntry | TreeDir | Submodule

  datatype TreeEntry = TreeEntry(kind: Kind, path: string, sha: string)

  /** The repository as GitHub answers for it. `objects` is the content-addressed store; a sha it lacks is
      a blob request that fails. `failure` is a failed repo, ref or tree request. */
  datatype Remote = Remote(
    failure: Option<string>, branch: string, head: string, tree: seq<TreeEntry>, truncated: bool,
    objects: map<string, Content>)

  datatype Snapshot = Snapshot(
    head: string, branch: string, configYAML: Content,
    changelogMD: Content, changelogSHA: string, indexMD: Content, indexSHA: string, blobs: seq<Blob>)

  /** The raw keys a YAML decoder finds; None when the bytes do not decode. */
  datatype RawConfig = RawConfig(
    docsDir: string, changelogEnabled: bool, changelogFile: string,
    apiEnabled: bool, landing: string, exclude: seq<string>, additional: seq<string>)

  datatype ApiHints = ApiHints(enabled: bool, landing: string, exclude: seq<string>, additional: seq<string>)

  /** The YAML decoder and docz's defaults. */
  datatype Yaml = Yaml(decode: Content -> Option<RawConfig>, docsDir: string, changelogEnabled: bool, changelogFile: string)

  // ---------------------------------------------------------------- hints

  function HintOf(value: string): string {
    StripDotSlash(TrimSpace(value))
  }

  function DocsDirHintOf(y: Yaml, config: Content): string {
    var raw := y.decode(config);
    if raw.Some? && raw.value.docsDir != "" then DocsDirHint(raw.value.docsDir) else y.docsDir
  }

  function ChangelogHint(y: Yaml, config: Content): (bool, string) {
    match y.decode(config)
    case None => (y.changelogEnabled, y.changelogFile)
    case Some(raw) =>
      var file := TrimPrefix(TrimSpace(raw.changelogFile), "./");
      (raw.changelogEnabled, if file == "" then y.changelogFile else file)
  }

  /** Normalised entries, empty ones dropped; an exclude entry also loses one trailing slash. */
  function HintList(entries: seq<string>, prefixes: bool): seq<string> {
    if entries == [] then []
    else
      var h := HintOf(entries[|entries| - 1]);
      var e := if prefixes then TrimSuffix(h, "/") else h;
      HintList(entries[..|entries| - 1], prefixes) + if e != "" then [e] else []
  }

  function ApiHintOf(y: Yaml, config: Content): ApiHints {
    match y.decode(config)
    case None => ApiHints(false, "", [], [])
    case Some(raw) =>
      ApiHints(raw.apiEnabled, HintOf(raw.landing), HintList(raw.exclude, true), HintList(raw.additional, false))
  }

  method ApiHint(y: Yaml, config: Content) returns (h: ApiHints)
    ensures h == ApiHintOf(y, config)
  {
    var decoded := y.decode(config);
    if decoded.None? {
      return ApiHints(false, "", [], []);
    }
    var raw := decoded.value;
    var landing := HintPath(raw.landing);
    var exclude, additional := [], [];
    for i := 0 to |raw.exclude|
      invariant exclude == HintList(raw.exclude[..i], true)
    {
      assert raw.exclude[..i + 1][..i] == raw.exclude[..i];
      var e := HintPath(raw.exclude[i]);
      e := TrimSuffix(e, "/");
      if e != "" {
        exclude := exclude + [e];
      }
    }
    assert raw.exclude[..|raw.exclude|] == raw.exclude;
    for i := 0 to |raw.additional|
      invariant additional == HintList(raw.additional[..i], false)
    {
      assert raw.additional[..i + 1][..i] == raw.additional[..i];
      var e := HintPath(raw.additional[i]);
      if e != "" {
        additional := additional + [e];
      }
    }
    assert raw.additional[..|raw.additional|] == raw.additional;
    return ApiHints(raw.apiEnabled, landing, exclude, additional);
  }

  /** WikiIndexName and APILandingFileName are both index.md. */
  function LandingPath(docsDir: string, api: ApiHints): string {
    if !api.enabled then JoinPath(docsDir, LANDING_NAME)
    else if api.landing != "" then api.landing
    else JoinPath(docsDir, LANDING_NAME)
  }

  // ---------------------------------------------------------------- selection, as values

  function FindBlobSHA(tree: seq<TreeEntry>, p: string): string {
    if tree == [] then ""
    else if tree[0].kind == BlobEntry && tree[0].path == p then tree[0].sha
    else FindBlobSHA(tree[1..], p)
  }

  lemma {:induction false} FindEntry(tree: seq<TreeEntry>, p: string)
    ensures FindBlobSHA(tree, p) != "" ==>
              exists e :: e in tree && e.kind == BlobEntry && e.path == p && e.sha == FindBlobSHA(tree, p)
    ensures FindBlobSHA(tree, p) == "" ==>
              forall e :: e in tree && e.kind == BlobEntry && e.path == p ==> exists x :: x in tree && x.kind == BlobEntry && x.sha == ""
  {
    if tree != [] {
      FindEntry(tree[1..], p);
      assert forall e :: e in tree <==> e == tree[0] || e in tree[1..];
    }
  }

  /** A file of the tree at this path. */
  predicate FileEntry(tree: seq<TreeEntry>, p: string, e: TreeEntry) {
    e in tree && e.kind == BlobEntry && e.path == p
  }

  predicate Kept(isDocz: string -> bool, docsDir: string, apiEnabled: bool, p: string) {
    isDocz(Base(p)) || (apiEnabled && HasPrefix(p, docsDir + "/") && HasSuffix(p, ".md"))
  }

  function KeepEntry(isDocz: string -> bool, docsDir: string, apiEnabled: bool): TreeEntry -> bool {
    (e: TreeEntry) => e.kind == BlobEntry && Kept(isDocz, docsDir, apiEnabled, e.path)
  }

  /** The blobs behind the entries, in order, or the first failed request. */
  function ReadAll(objects: map<string, Content>, entries: seq<TreeEntry>): Result<seq<Blob>> {
    if entries == [] then Ok([])
    else
      var before := ReadAll(objects, entries[..|entries| - 1]);
      var e := entries[|entries| - 1];
      if before.Err? then before
      else if e.sha !in objects then Err("get blob")
      else Ok(before.value + [Blob(e.path, e.sha, objects[e.sha])])
  }

  /** The entries of the additional_docs files present in the tree. */
  function ExtraEntries(tree: seq<TreeEntry>, entries: seq<string>): seq<TreeEntry> {
    if entries == [] then []
    else
      var e := entries[|entries| - 1];
      ExtraEntries(tree, entries[..|entries| - 1])
      + if HasSuffix(e, ".md") && FindBlobSHA(tree, e) != "" then [TreeEntry(BlobEntry, e, FindBlobSHA(tree, e))] else []
  }

  /** One optional file cached on the repo row: body and sha, both empty when absent. */
  function ReadOptional(r: Remote, p: string): Result<(Content, string)> {
    var sha := FindBlobSHA(r.tree, p);
    if sha == "" then Ok(("", ""))
    else if sha !in r.objects then Err("get blob")
    else Ok((r.objects[sha], sha))
  }

  function FetchOf(lib: Lib, y: Yaml, r: Remote): Result<Snapshot> {
    if r.failure.Some? then Err(r.failure.value)
    else if r.truncated then Err("truncated tree")
    else
      var configSHA := FindBlobSHA(r.tree, CONFIG_FILE);
      if configSHA == "" then Err("no .docz.yaml")
      else if configSHA !in r.objects then Err("get blob")
      else
        var config := r.objects[configSHA];
        var docsDir, api, changelog := DocsDirHintOf(y, config), ApiHintOf(y, config), ChangelogHint(y, config);
        var cl := if changelog.0 then ReadOptional(r, changelog.1) else Ok(("", ""));
        if cl.Err? then Err(cl.error)
        else
          var index := ReadOptional(r, LandingPath(docsDir, api));
          if index.Err? then Err(index.error)
          else
            var docs := ReadAll(r.objects, Filter(KeepEntry(lib.isDocz, docsDir, api.enabled), r.tree));
            if docs.Err? then Err(docs.error)
            else
              var extra := if api.enabled then ReadAll(r.objects, ExtraEntries(r.tree, api.additional)) else Ok([]);
              if extra.Err? then Err(extra.error)
              else Ok(Snapshot(r.head, r.branch, config, cl.value.0, cl.value.1, index.value.0, index.value.1,
                               docs.value + extra.value))
  }

  // ---------------------------------------------------------------- the client, as code

  lemma {:induction false} ReadAllErr(objects: map<string, Content>, entries: seq<TreeEntry>, i: nat)
    requires i <= |entries| && ReadAll(objects, entries[..i]).Err?
    ensures ReadAll(objects, entries) == ReadAll(objects, entries[..i])
    decreases |entries| - i
  {
    if i == |entries| {
      assert entries[..i] == entries;
    } else {
      assert entries[..i + 1][..i] == entries[..i];
      ReadAllErr(objects, entries, i + 1);
    }
  }

  class Client {
    const remote: Remote

    constructor (remote: Remote)
      ensures this.remote == remote
    {
      this.remote := remote;
    }

    method FetchBlob(sha: string) returns (r: Result<Content>)
      ensures r == if sha in remote.objects then Ok(remote.objects[sha]) else Err("get blob")
    {
      r := if sha in remote.objects then Ok(remote.objects[sha]) else Err("get blob");
    }

    method ClassifyTree(isDocz: string -> bool, docsDir: string, apiEnabled: bool) returns (docs: seq<TreeEntry>)
      ensures docs == Filter(KeepEntry(isDocz, docsDir, apiEnabled), remote.tree)
      ensures forall e :: e in docs <==>
                e in remote.tree && e.kind == BlobEntry
                && (isDocz(Base(e.path)) || (apiEnabled && docsDir + "/" <= e.path && HasSuffix(e.path, ".md")))
    {
      FilterIn(KeepEntry(isDocz, docsDir, apiEnabled), remote.tree);
      docs := [];
      ghost var keep := KeepEntry(isDocz, docsDir, apiEnabled);
      for i := 0 to |remote.tree|
        invariant docs == Filter(keep, remote.tree[..i])
      {
        var e := remote.tree[i];
        assert remote.tree[..i + 1][..i] == remote.tree[..i];
        if e.kind != BlobEntry {
          continue;
        }
        if isDocz(Base(e.path)) {
          docs := docs + [e];
        } else if apiEnabled && HasPrefix(e.path, docsDir + "/") && HasSuffix(e.path, ".md") {
          docs := docs + [e];
        }
      }
      assert remote.tree[..|remote.tree|] == remote.tree;
    }

    method FetchDocBlobs(entries: seq<TreeEntry>) returns (r: Result<seq<Blob>>)
      ensures r == ReadAll(remote.objects, entries)
    {
      var blobs: seq<Blob> := [];
      for i := 0 to |entries|
        invariant ReadAll(remote.objects, entries[..i]) == Ok(blobs)
      {
        assert entries[..i + 1][..i] == entries[..i];
        var content := FetchBlob(entries[i].sha);
        if content.Err? {
          ReadAllErr(remote.objects, entries, i + 1);
          return Err(content.error);
        }
        blobs := blobs + [Blob(entries[i].path, entries[i].sha, content.value)];
      }
      assert entries[..|entries|] == entries;
      return Ok(blobs);
    }

    method FetchAdditionalDocs(entries: seq<string>) returns (r: Result<seq<Blob>>)
      ensures r == ReadAll(remote.objects, ExtraEntries(remote.tree, entries))
    {
      var blobs: seq<Blob> := [];
      for i := 0 to |entries|
        invariant ReadAll(remote.objects, ExtraEntries(remote.tree, entries[..i])) == Ok(blobs)
      {
        var entry := entries[i];
        ghost var before := ExtraEntries(remote.tree, entries[..i]);
        assert entries[..i + 1][..i] == entries[..i];
        if !HasSuffix(entry, ".md") {
          assert before + [] == before;
          continue;
        }
        var sha := FindBlobSHA(remote.tree, entry);
        if sha == "" {
          assert before + [] == before;
          continue;
        }
        var content := FetchBlob(sha);
        assert (before + [TreeEntry(BlobEntry, entry, sha)])[..|before|] == before;
        if content.Err? {
          ExtraErr(remote, entries, i + 1);
          return Err(content.error);
        }
        blobs := blobs + [Blob(entry, sha, content.value)];
      }
      assert entries[..|entries|] == entries;
      return Ok(blobs);
    }

    method FetchSnapshot(lib: Lib, y: Yaml) returns (r: Result<Snapshot>)
      ensures r == FetchOf(lib, y, remote)
      ensures r.Ok? ==> remote.failure.None? && !remote.truncated
      ensures r.Ok? ==> exists c :: FileEntry(remote.tree, ".docz.yaml", c) && c.sha in remote.objects
                                    && r.value.configYAML == remote.objects[c.sha]
    {
      if remote.failure.Some? {
        return Err(remote.failure.value);
      }
      if remote.truncated {
        return Err("truncated tree");
      }
      var configSHA := FindBlobSHA(remote.tree, CONFIG_FILE);
      FindEntry(remote.tree, CONFIG_FILE);
      if configSHA == "" {
        return Err("no .docz.yaml");
      }
      var config := FetchBlob(configSHA);
      if config.Err? {
        return Err(config.error);
      }
      var snap := Snapshot(remote.head, remote.branch, config.value, "", "", "", "", []);
      var docsDir := DocsDirHintOf(y, snap.configYAML);
      var api := ApiHint(y, snap.configYAML);
      var (enabled, clPath) := ChangelogHint(y, snap.configYAML);
      if enabled {
        var clSHA := FindBlobSHA(remote.tree, clPath);
        if clSHA != "" {
          var body := FetchBlob(clSHA);
          if body.Err? {
            return Err(body.error);
          }
          snap := snap.(changelogMD := body.value, changelogSHA := clSHA);
        }
      }
      var indexSHA := FindBlobSHA(remote.tree, LandingPath(docsDir, api));
      if indexSHA != "" {
        var body := FetchBlob(indexSHA);
        if body.Err? {
          return Err(body.error);
        }
        snap := snap.(indexMD := body.value, indexSHA := indexSHA);
      }
      var entries := ClassifyTree(lib.isDocz, docsDir, api.enabled);
      var docs := FetchDocBlobs(entries);
      if docs.Err? {
        return Err(docs.error);
      }
      snap := snap.(blobs := docs.value);
      if !api.enabled {
        assert snap.blobs + [] == snap.blobs;
        return Ok(snap);
      }
      var extra := FetchAdditionalDocs(api.additional);
      if extra.Err? {
        return Err(extra.error);
      }
      snap := snap.(blobs := snap.blobs + extra.value);
      return Ok(snap);
    }
  }

  lemma {:induction false} ExtraPrefix(tree: seq<TreeEntry>, entries: seq<string>, i: nat)
    requires i <= |entries|
    ensures ExtraEntries(tree, entries[..i]) <= ExtraEntries(tree, entries)
    decreases |entries|
  {
    if i == |entries| {
      assert entries[..i] == entries;
    } else {
      var n := |entries| - 1;
      assert entries[..n][..i] == entries[..i];
      ExtraPrefix(tree, entries[..n], i);
    }
  }

  lemma ExtraErr(r: Remote, entries: seq<string>, i: nat)
    requires i <= |entries| && ReadAll(r.objects, ExtraEntries(r.tree, entries[..i])).Err?
    ensures ReadAll(r.objects, ExtraEntries(r.tree, entries)) == ReadAll(r.objects, ExtraEntries(r.tree, entries[..i]))
  {
    ExtraPrefix(r.tree, entries, i);
    var before, all := ExtraEntries(r.tree, entries[..i]), ExtraEntries(r.tree, entries);
    assert all[..|before|] == before;
    ReadAllErr(r.objects, all, |before|);
  }
}
