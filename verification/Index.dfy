/** search/index.go and ingest's syncIndex: the index calls as code, tied to the sync steps of module Mirror. */
module Index {
  import opened Text
  import opened Config
  import opened Gate
  import opened Tables
  import opened IndexKeys
  import opened Mirror
  import Store

  /** Add-or-replace by primary key, in order. */
  function AddAll(m: SearchIndex, docs: seq<IndexDoc>): SearchIndex {
    if docs == [] then m else AddAll(m, docs[..|docs| - 1])[docs[|docs| - 1].id := docs[|docs| - 1]]
  }

  lemma {:induction false} AddAllMerge(m: SearchIndex, docs: seq<IndexDoc>)
    ensures AddAll(m, docs) == m + AddAll(map[], docs)
    ensures docs == [] <==> AddAll(map[], docs) == map[]
  {
    if docs != [] {
      AddAllMerge(m, docs[..|docs| - 1]);
      assert docs[|docs| - 1].id in AddAll(map[], docs);
    } else {
      assert m + map[] == m;
    }
  }

  /** The last of the records with this id. */
  predicate LastWithId(docs: seq<IndexDoc>, i: nat) {
    i < |docs| && forall j :: i < j < |docs| ==> docs[j].id != docs[i].id
  }

  lemma {:induction false} AddAllKeys(m: SearchIndex, docs: seq<IndexDoc>, k: string)
    ensures k in AddAll(m, docs) <==> k in m || exists i :: 0 <= i < |docs| && docs[i].id == k
    ensures k in m && (forall i :: 0 <= i < |docs| ==> docs[i].id != k) ==> AddAll(m, docs)[k] == m[k]
  {
    if docs != [] {
      var n := |docs| - 1;
      AddAllKeys(m, docs[..n], k);
      assert forall i :: 0 <= i < n ==> docs[..n][i] == docs[i];
    }
  }

  /** Adding is by key: the last record added under a key is the one kept, and other keys are left alone. */
  lemma {:induction false} AddAllLast(m: SearchIndex, docs: seq<IndexDoc>, i: nat)
    requires LastWithId(docs, i)
    ensures docs[i].id in AddAll(m, docs) && AddAll(m, docs)[docs[i].id] == docs[i]
  {
    var n := |docs| - 1;
    if i < n {
      assert forall j :: 0 <= j < n ==> docs[..n][j] == docs[j];
      assert docs[n].id != docs[i].id;
      AddAllLast(m, docs[..n], i);
    }
  }

  /** The index after adding: under the id of each record the last one with that id, elsewhere what was there. */
  ghost predicate AddedByKey(was: SearchIndex, docs: seq<IndexDoc>, now: SearchIndex) {
    && (forall k :: k in now <==> k in was || exists i :: 0 <= i < |docs| && docs[i].id == k)
    && (forall k :: k in was && (forall i :: 0 <= i < |docs| ==> docs[i].id != k) ==> now[k] == was[k])
    && (forall i: nat :: LastWithId(docs, i) ==> now[docs[i].id] == docs[i])
  }

  lemma AddedAll(m: SearchIndex, docs: seq<IndexDoc>)
    ensures AddedByKey(m, docs, AddAll(m, docs))
  {
    forall k ensures k in AddAll(m, docs) <==> k in m || exists i :: 0 <= i < |docs| && docs[i].id == k {
      AddAllKeys(m, docs, k);
    }
    forall k | k in m && forall i :: 0 <= i < |docs| ==> docs[i].id != k ensures AddAll(m, docs)[k] == m[k] {
      AddAllKeys(m, docs, k);
    }
    forall i: nat | LastWithId(docs, i) ensures AddAll(m, docs)[docs[i].id] == docs[i] {
      AddAllLast(m, docs, i);
    }
  }

  /** The search engine's one index. The outcome of each call is the environment's. */
  class Client {
    var records: SearchIndex

    constructor ()
      ensures records == map[]
    {
      records := map[];
    }

    method IndexDocuments(docs: seq<IndexDoc>, o: Outcome) returns (ok: bool)
      modifies this
      ensures records == if docs == [] then old(records) else Tell(old(records), old(records) + AddAll(map[], docs), o)
      ensures ok == (docs == [] || o.Done?)
      ensures !o.Lost? ==> AddedByKey(old(records), docs, records)
    {
      AddedAll(records, docs);
      AddAllMerge(records, docs);
      if |docs| == 0 {
        return true;
      }
      if !o.Lost? {
        records := AddAll(records, docs);
      }
      return o.Done?;
    }

    method DeleteDocuments(ids: seq<string>, o: Outcome) returns (ok: bool)
      modifies this
      ensures records == if ids == [] then old(records) else Tell(old(records), old(records) - Elems(ids), o)
      ensures ok == (ids == [] || o.Done?)
      ensures !o.Lost? ==> records == map k | k in old(records) && k !in ids :: old(records)[k]
    {
      if |ids| == 0 {
        return true;
      }
      if !o.Lost? {
        records := records - Elems(ids);
      }
      return o.Done?;
    }

    method DeleteRepoDocuments(repoID: int, o: Outcome) returns (ok: bool)
      modifies this
      ensures records == if o.Lost? then old(records) else old(records) - KeysOf(old(records), repoID)
      ensures !o.Lost? ==> records == map k | k in old(records) && old(records)[k].repoID != repoID :: old(records)[k]
      ensures ok == o.Done?
    {
      if !o.Lost? {
        records := records - KeysOf(records, repoID);
      }
      return o.Done?;
    }
  }

  // ---------------------------------------------------------------- reading the upserted rows back

  /** What a report says, as the sync the machine runs. */
  predicate ReportOf(res: ReconcileResult, y: Sync) {
    && res.repoID == y.id && y.stage == Fresh
    && Elems(res.deletedDocIDs) == y.goneDocs && Elems(res.deletedPagePaths) == y.gonePages
    && Elems(res.upsertedDocIDs) == y.docs && Elems(res.upsertedPagePaths) == y.pages
  }

  lemma ListedElems(list: seq<string>, s: set<string>)
    requires ListsSet(list, s)
    ensures Elems(list) == s
  {
    Store.ListsIff(list, s);
  }

  /** What a committed reconcile reports is the sync the machine starts. */
  lemma ReportIsSync(res: ReconcileResult, db: Db, next: int, input: ReconcileInput)
    requires Reports(res, db, next, input)
    ensures ReportOf(res, SyncOf(db, next, input))
  {
    var id := RepoIDFor(db, LabelOf(input.repo), next);
    ListedElems(res.deletedDocIDs, Removed(RowsAt(db, id).docs, DocEntries(input.documents)));
    ListedElems(res.deletedPagePaths, Removed(RowsAt(db, id).pages, PageEntries(input.pages)));
  }

  /** The rows of a table with these keys, each once, in the driver's order. */
  predicate RowsOf<V(==)>(rows: seq<(string, Stored<V>)>, t: Table<V>) {
    && (forall i :: 0 <= i < |rows| ==> rows[i].0 in t && t[rows[i].0] == rows[i].1)
    && (forall k :: k in t ==> exists i :: 0 <= i < |rows| && rows[i].0 == k)
  }

  method Select<V(==)>(t: Table<V>, keys: seq<string>) returns (rows: seq<(string, Stored<V>)>)
    ensures RowsOf(rows, Restrict(t, Elems(keys)))
  {
    var some := Restrict(t, Elems(keys));
    var list := Store.Listed(some.Keys);
    Store.ListsIff(list, some.Keys);
    rows := [];
    for n := 0 to |list|
      invariant |rows| == n
      invariant forall i :: 0 <= i < n ==> rows[i] == (list[i], some[list[i]])
    {
      assert list[n] in list;
      rows := rows + [(list[n], some[list[n]])];
    }
  }

  function DocList(l: Label, id: int, rows: seq<(string, Stored<DocRow>)>): (docs: seq<IndexDoc>)
    ensures |docs| == |rows| && forall i :: 0 <= i < |docs| ==> docs[i] == ToIndexDoc(l, id, rows[i].0, rows[i].1)
  {
    if rows == [] then []
    else DocList(l, id, rows[..|rows| - 1]) + [ToIndexDoc(l, id, rows[|rows| - 1].0, rows[|rows| - 1].1)]
  }

  function PageList(digest: string -> string, l: Label, id: int, rows: seq<(string, Stored<PageRow>)>): (docs: seq<IndexDoc>)
    ensures |docs| == |rows| && forall i :: 0 <= i < |docs| ==> docs[i] == ToIndexPage(digest, l, id, rows[i].0, rows[i].1)
  {
    if rows == [] then []
    else PageList(digest, l, id, rows[..|rows| - 1]) + [ToIndexPage(digest, l, id, rows[|rows| - 1].0, rows[|rows| - 1].1)]
  }

  predicate Within(docs: seq<IndexDoc>, image: SearchIndex) {
    forall i :: 0 <= i < |docs| ==> docs[i].id in image && image[docs[i].id] == docs[i]
  }

  predicate Covers(docs: seq<IndexDoc>, image: SearchIndex) {
    forall k :: k in image ==> exists i :: 0 <= i < |docs| && docs[i].id == k
  }

  lemma {:induction false} AddAllWithin(docs: seq<IndexDoc>, image: SearchIndex)
    requires Within(docs, image)
    ensures forall i :: 0 <= i < |docs| ==> docs[i].id in AddAll(map[], docs)
    ensures forall k :: k in AddAll(map[], docs) ==> k in image && AddAll(map[], docs)[k] == image[k]
  {
    if docs != [] {
      var n := |docs| - 1;
      assert forall i :: 0 <= i < n ==> docs[..n][i] == docs[i];
      AddAllWithin(docs[..n], image);
    }
  }

  /** Adding records of one image, all of its keys among them, makes that image. */
  lemma AddAllIsImage(docs: seq<IndexDoc>, image: SearchIndex)
    requires Within(docs, image) && Covers(docs, image)
    ensures AddAll(map[], docs) == image
  {
    AddAllWithin(docs, image);
    SubmapCovering(AddAll(map[], docs), docs, image);
  }

  lemma SubmapCovering(m: SearchIndex, docs: seq<IndexDoc>, image: SearchIndex)
    requires Covers(docs, image)
    requires forall i :: 0 <= i < |docs| ==> docs[i].id in m
    requires forall k :: k in m ==> k in image && m[k] == image[k]
    ensures m == image
  {
  }

  lemma DocListCovers(l: Label, id: int, rows: seq<(string, Stored<DocRow>)>, t: Table<DocRow>, image: SearchIndex)
    requires RowsOf(rows, t) && image.Keys == DocKeys(id, t.Keys)
    ensures Covers(DocList(l, id, rows), image)
  {
    var docs := DocList(l, id, rows);
    forall k | k in image ensures exists i :: 0 <= i < |docs| && docs[i].id == k {
      var d :| d in t && PrimaryKey(id, d) == k;
      var i :| 0 <= i < |rows| && rows[i].0 == d;
      assert docs[i].id == k;
    }
  }

  lemma DocListWithin(l: Label, id: int, rows: seq<(string, Stored<DocRow>)>, t: Table<DocRow>)
    requires RowsOf(rows, t)
    ensures Within(DocList(l, id, rows), DocImage(l, id, t))
  {
  }

  lemma DocListIsImage(l: Label, id: int, rows: seq<(string, Stored<DocRow>)>, t: Table<DocRow>)
    requires RowsOf(rows, t)
    ensures AddAll(map[], DocList(l, id, rows)) == DocImage(l, id, t)
  {
    DocListWithin(l, id, rows, t);
    DocListCovers(l, id, rows, t, DocImage(l, id, t));
    AddAllIsImage(DocList(l, id, rows), DocImage(l, id, t));
  }

  lemma PageListCovers(digest: string -> string, l: Label, id: int, rows: seq<(string, Stored<PageRow>)>, t: Table<PageRow>, image: SearchIndex)
    requires RowsOf(rows, t) && image.Keys == PageKeys(digest, id, t.Keys)
    ensures Covers(PageList(digest, l, id, rows), image)
  {
    var docs := PageList(digest, l, id, rows);
    forall k | k in image ensures exists i :: 0 <= i < |docs| && docs[i].id == k {
      var p :| p in t && PagePrimaryKey(digest, id, p) == k;
      var i :| 0 <= i < |rows| && rows[i].0 == p;
      assert docs[i].id == k;
    }
  }

  lemma PageListWithin(w: World, l: Label, id: int, rows: seq<(string, Stored<PageRow>)>, t: Table<PageRow>)
    requires KeysApart(w.digest, {}, w.paths) && t.Keys <= w.paths && RowsOf(rows, t)
    ensures Within(PageList(w.digest, l, id, rows), PageImage(w.digest, l, id, t))
  {
    var docs, image := PageList(w.digest, l, id, rows), PageImage(w.digest, l, id, t);
    forall i | 0 <= i < |docs| ensures docs[i].id in image && image[docs[i].id] == docs[i] {
      PageImageAt(w.digest, l, id, t, w.paths, rows[i].0);
    }
  }

  lemma PageListIsImage(w: World, l: Label, id: int, rows: seq<(string, Stored<PageRow>)>, t: Table<PageRow>)
    requires KeysApart(w.digest, {}, w.paths) && t.Keys <= w.paths && RowsOf(rows, t)
    ensures AddAll(map[], PageList(w.digest, l, id, rows)) == PageImage(w.digest, l, id, t)
  {
    PageListWithin(w, l, id, rows, t);
    PageListCovers(w.digest, l, id, rows, t, PageImage(w.digest, l, id, t));
    AddAllIsImage(PageList(w.digest, l, id, rows), PageImage(w.digest, l, id, t));
  }

  lemma {:induction false} AddAllConcat(m: SearchIndex, a: seq<IndexDoc>, b: seq<IndexDoc>)
    ensures AddAll(m, a + b) == AddAll(AddAll(m, a), b)
    decreases |b|
  {
    if b == [] {
      assert a + b == a;
    } else {
      assert (a + b)[..|a + b| - 1] == a + b[..|b| - 1];
      AddAllConcat(m, a, b[..|b| - 1]);
    }
  }
}
