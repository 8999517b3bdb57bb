/** ingest/indexmap.go: the search records of stored rows and their primary keys. */
module IndexKeys {
  import opened Text
  import opened Gate
  import opened Tables

  datatype Source = SourceDoc | SourcePage

  datatype IndexDoc = IndexDoc(
    id: string, source: Source, repo: string, repoID: int, docID: string, docType: string, title: string,
    status: string, author: string, created: Option<int>, path: string, body: string, updatedAt: int)

  const PAGE_HASH_LEN := 16

  function PrimaryKey(repoID: int, docID: string): string {
    FormatInt(repoID) + "_" + docID
  }

  /** `digest` is hex sha256; a page key uses its first 16 characters. */
  function PageHash(digest: string -> string, path: string): string {
    var d := digest(path);
    if |d| < PAGE_HASH_LEN then d else d[..PAGE_HASH_LEN]
  }

  function PagePrimaryKey(digest: string -> string, repoID: int, path: string): string {
    FormatInt(repoID) + "_p_" + PageHash(digest, path)
  }

  function RepoText(l: Label): string {
    l.0 + "/" + l.1
  }

  function NullableText(t: Option<string>): string {
    if t.Some? then t.value else ""
  }

  function ToIndexDoc(l: Label, repoID: int, docID: string, d: Stored<DocRow>): IndexDoc {
    IndexDoc(PrimaryKey(repoID, docID), SourceDoc, RepoText(l), repoID, docID, d.row.docType, d.row.title,
             NullableText(d.row.status), NullableText(d.row.author), d.row.created, d.row.path, d.row.rawMD, d.at)
  }

  function ToIndexPage(digest: string -> string, l: Label, repoID: int, path: string, p: Stored<PageRow>): IndexDoc {
    IndexDoc(PagePrimaryKey(digest, repoID, path), SourcePage, RepoText(l), repoID, "", "", p.row.title,
             "", "", None, path, p.row.rawMD, p.at)
  }

  // ---------------------------------------------------------------- injectivity

  function Underscore(key: string): (i: nat)
    ensures i <= |key|
  {
    if key == "" || key[0] == '_' then 0 else 1 + Underscore(key[1..])
  }

  lemma {:induction false} UnderscoreAt(a: string, b: string)
    requires '_' !in a
    ensures Underscore(a + "_" + b) == |a|
  {
    if a == "" {
      assert (a + "_" + b)[0] == '_';
    } else {
      assert a[0] in a && forall c :: c in a[1..] ==> c in a;
      UnderscoreAt(a[1..], b);
      assert (a + "_" + b)[1..] == a[1..] + "_" + b;
    }
  }

  lemma FormatIntPlain(n: int)
    ensures '_' !in FormatInt(n)
  {
  }

  /** The first underscore splits a key into its repo id and the rest, so the pair is determined by the key. */
  lemma PrimaryKeyInjective(r: int, d: string, s: int, e: string)
    ensures PrimaryKey(r, d) == PrimaryKey(s, e) <==> r == s && d == e
  {
    if PrimaryKey(r, d) == PrimaryKey(s, e) {
      FormatIntPlain(r);
      FormatIntPlain(s);
      UnderscoreAt(FormatInt(r), d);
      UnderscoreAt(FormatInt(s), e);
      var key := PrimaryKey(r, d);
      assert key[..|FormatInt(r)|] == FormatInt(r) && key[..|FormatInt(s)|] == FormatInt(s);
      assert key[|FormatInt(r)| + 1..] == d && key[|FormatInt(s)| + 1..] == e;
      FormatIntInjective(r, s);
    }
  }

  lemma PageKeyIsPrimary(digest: string -> string, r: int, path: string)
    ensures PagePrimaryKey(digest, r, path) == PrimaryKey(r, "p_" + PageHash(digest, path))
  {
  }

  /** A document key and a page key meet only in one repo, and only when the document id is spelled as the
      page's marker and hash. */
  lemma FamiliesMeet(digest: string -> string, r: int, docID: string, s: int, path: string)
    ensures PrimaryKey(r, docID) == PagePrimaryKey(digest, s, path) <==> r == s && docID == "p_" + PageHash(digest, path)
  {
    PageKeyIsPrimary(digest, s, path);
    PrimaryKeyInjective(r, docID, s, "p_" + PageHash(digest, path));
  }

  /** Page keys are injective up to collisions of the 16-character hash prefix. */
  lemma PageKeyInjective(digest: string -> string, r: int, p: string, s: int, q: string)
    ensures PagePrimaryKey(digest, r, p) == PagePrimaryKey(digest, s, q) <==>
            r == s && PageHash(digest, p) == PageHash(digest, q)
    ensures |digest(p)| >= 16 && |digest(q)| >= 16 ==>
              (PagePrimaryKey(digest, r, p) == PagePrimaryKey(digest, s, q) <==> r == s && digest(p)[..16] == digest(q)[..16])
  {
    PageKeyIsPrimary(digest, s, q);
    FamiliesMeet(digest, r, "p_" + PageHash(digest, p), s, q);
    PageKeyIsPrimary(digest, r, p);
    assert ("p_" + PageHash(digest, p))[2..] == PageHash(digest, p);
    assert ("p_" + PageHash(digest, q))[2..] == PageHash(digest, q);
  }

  // ---------------------------------------------------------------- the records of one repo

  /** A key carries this repo id before its first underscore. */
  predicate Owns(repoID: int, key: string) {
    HasPrefix(key, FormatInt(repoID) + "_")
  }

  lemma OwnsIs(r: int, key: string)
    requires Owns(r, key)
    ensures key == PrimaryKey(r, key[|FormatInt(r)| + 1..])
  {
    assert key == key[..|FormatInt(r)| + 1] + key[|FormatInt(r)| + 1..];
  }

  lemma OwnsOnce(r: int, s: int, key: string)
    requires Owns(r, key) && Owns(s, key)
    ensures r == s
  {
    OwnsIs(r, key);
    OwnsIs(s, key);
    PrimaryKeyInjective(r, key[|FormatInt(r)| + 1..], s, key[|FormatInt(s)| + 1..]);
  }

  lemma OwnsPrimary(r: int, docID: string)
    ensures Owns(r, PrimaryKey(r, docID))
  {
    assert PrimaryKey(r, docID)[..|FormatInt(r)| + 1] == FormatInt(r) + "_";
  }

  lemma OwnsPage(digest: string -> string, r: int, path: string)
    ensures Owns(r, PagePrimaryKey(digest, r, path))
  {
    PageKeyIsPrimary(digest, r, path);
    OwnsPrimary(r, "p_" + PageHash(digest, path));
  }

  /** The document ids and published paths in use do not collide as index keys: the hash prefix separates the
      paths, and no document id is spelled like a page key. */
  predicate KeysApart(digest: string -> string, docIDs: set<string>, paths: set<string>) {
    && (forall p, q :: p in paths && q in paths && PageHash(digest, p) == PageHash(digest, q) ==> p == q)
    && (forall d, p :: d in docIDs && p in paths ==> d != "p_" + PageHash(digest, p))
  }

  function DocKeys(repoID: int, ids: set<string>): set<string> {
    set d | d in ids :: PrimaryKey(repoID, d)
  }

  function PageKeys(digest: string -> string, repoID: int, paths: set<string>): set<string> {
    set p | p in paths :: PagePrimaryKey(digest, repoID, p)
  }

  function DocImage(l: Label, repoID: int, docs: Table<DocRow>): (m: map<string, IndexDoc>)
    ensures m.Keys == DocKeys(repoID, docs.Keys)
    ensures forall d :: d in docs ==> PrimaryKey(repoID, d) in m && m[PrimaryKey(repoID, d)] == ToIndexDoc(l, repoID, d, docs[d])
  {
    assert forall d, e :: PrimaryKey(repoID, d) == PrimaryKey(repoID, e) ==> d == e by {
      forall d, e | PrimaryKey(repoID, d) == PrimaryKey(repoID, e) ensures d == e {
        PrimaryKeyInjective(repoID, d, repoID, e);
      }
    }
    map d | d in docs :: PrimaryKey(repoID, d) := ToIndexDoc(l, repoID, d, docs[d])
  }

  /** When two paths share a hash prefix their one key carries one of the two. */
  ghost function PageImage(digest: string -> string, l: Label, repoID: int, pages: Table<PageRow>): (m: map<string, IndexDoc>)
    ensures m.Keys == PageKeys(digest, repoID, pages.Keys)
    ensures forall key :: key in m ==>
              exists p :: p in pages && PagePrimaryKey(digest, repoID, p) == key && m[key] == ToIndexPage(digest, l, repoID, p, pages[p])
  {
    map key | key in PageKeys(digest, repoID, pages.Keys) ::
      var p :| p in pages && PagePrimaryKey(digest, repoID, p) == key; ToIndexPage(digest, l, repoID, p, pages[p])
  }

  lemma PageImageAt(digest: string -> string, l: Label, repoID: int, pages: Table<PageRow>, paths: set<string>, p: string)
    requires KeysApart(digest, {}, paths) && pages.Keys <= paths && p in pages
    ensures PagePrimaryKey(digest, repoID, p) in PageImage(digest, l, repoID, pages)
    ensures PageImage(digest, l, repoID, pages)[PagePrimaryKey(digest, repoID, p)] == ToIndexPage(digest, l, repoID, p, pages[p])
  {
    var key := PagePrimaryKey(digest, repoID, p);
    var m := PageImage(digest, l, repoID, pages);
    assert key in m;
    var q :| q in pages && PagePrimaryKey(digest, repoID, q) == key && m[key] == ToIndexPage(digest, l, repoID, q, pages[q]);
    PageKeyInjective(digest, repoID, p, repoID, q);
  }

  /** Documents first, then pages, in one add-or-replace. */
  ghost function Image(digest: string -> string, l: Label, repoID: int, rows: Rows): map<string, IndexDoc> {
    DocImage(l, repoID, rows.docs) + PageImage(digest, l, repoID, rows.pages)
  }

  /** A record's key names its repo, and the record carries the key, the repo id and the label. */
  predicate RecordOf(l: Label, repoID: int, key: string, d: IndexDoc) {
    Owns(repoID, key) && d.id == key && d.repoID == repoID && d.repo == RepoText(l)
  }

  /** Document keys and page keys never meet. */
  lemma FamiliesApart(digest: string -> string, repoID: int, docIDs: set<string>, paths: set<string>, r: int)
    requires KeysApart(digest, docIDs, paths)
    ensures DocKeys(repoID, docIDs) !! PageKeys(digest, r, paths)
  {
    forall d, p | d in docIDs && p in paths ensures PrimaryKey(repoID, d) != PagePrimaryKey(digest, r, p) {
      FamiliesMeet(digest, repoID, d, r, p);
    }
  }
}
