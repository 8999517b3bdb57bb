/** store/store.go and store/reconcile.go as code over the row values of module Tables. */
module Store {
  import opened Text
  import opened Config
  import opened Pages
  import opened Documents
  import opened Gate
  import opened Tables

  /** One open transaction: its own view of the rows, and how many more statements the driver will take
      before one fails (negative: none fails). Statements on rows need their repo, as the foreign keys do. */
  class Tx {
    var db: Db
    var faultIn: int

    constructor (db: Db, faultIn: int)
      ensures this.db == db && this.faultIn == faultIn
    {
      this.db := db;
      this.faultIn := faultIn;
    }

    method Fails() returns (f: bool)
      modifies this`faultIn
      ensures old(faultIn) < 0 ==> !f && faultIn < 0
    {
      f := faultIn == 0;
      faultIn := faultIn - 1;
    }

    /** INSERT ... ON CONFLICT (owner, name) DO UPDATE ... RETURNING id; the foreign key needs the installation. */
    method UpsertRepo(r: RepoInput, next: int) returns (res: Result<int>)
      modifies this
      ensures res.Ok? ==> r.installation in old(db).installations && res.value == RepoIDFor(old(db), LabelOf(r), next)
                          && db == RepoUpserted(old(db), next, r)
      ensures old(faultIn) < 0 ==> faultIn < 0 && (res.Ok? <==> r.installation in old(db).installations)
    {
      var f := Fails();
      if f {
        return Err("upsert repo");
      }
      if r.installation !in db.installations {
        return Err("foreign key");
      }
      var id := RepoIDFor(db, LabelOf(r), next);
      db := RepoUpserted(db, next, r);
      return Ok(id);
    }

    method ListDocTypes(id: int) returns (res: Result<seq<string>>)
      modifies this`faultIn
      ensures res.Ok? ==> ListsSet(res.value, RowsAt(db, id).types.Keys)
      ensures old(faultIn) < 0 ==> faultIn < 0 && res.Ok?
    {
      var f := Fails();
      if f {
        return Err("list doc types");
      }
      var names := Listed(RowsAt(db, id).types.Keys);
      return Ok(names);
    }

    method UpsertDocType(id: int, d: DocTypeInput) returns (ok: bool)
      requires id in db.rows
      modifies this
      ensures ok ==> db == SetTypes(old(db), id, old(db).rows[id].types[d.name := d])
      ensures old(faultIn) < 0 ==> faultIn < 0 && ok
    {
      var f := Fails();
      if !f {
        db := SetTypes(db, id, db.rows[id].types[d.name := d]);
      }
      return !f;
    }

    method DeleteDocType(id: int, name: string) returns (ok: bool)
      requires id in db.rows
      modifies this
      ensures ok ==> db == SetTypes(old(db), id, old(db).rows[id].types - {name})
      ensures old(faultIn) < 0 ==> faultIn < 0 && ok
    {
      var f := Fails();
      if !f {
        db := SetTypes(db, id, db.rows[id].types - {name});
      }
      return !f;
    }

    method ListDocumentHashes(id: int) returns (res: Result<seq<(string, string)>>)
      modifies this`faultIn
      ensures res.Ok? ==> HashRows(res.value, RowsAt(db, id).docs)
      ensures old(faultIn) < 0 ==> faultIn < 0 && res.Ok?
    {
      var f := Fails();
      if f {
        return Err("list document hashes");
      }
      var rows := ListHashes(RowsAt(db, id).docs);
      return Ok(rows);
    }

    method UpsertDocument(id: int, d: DocInput, now: int) returns (ok: bool)
      requires id in db.rows
      modifies this
      ensures ok ==> db == SetDocs(old(db), id, old(db).rows[id].docs[d.docID := Stored(d.contentHash, DocEntry(d).row, now)])
      ensures old(faultIn) < 0 ==> faultIn < 0 && ok
    {
      var f := Fails();
      if !f {
        db := SetDocs(db, id, db.rows[id].docs[d.docID := Stored(d.contentHash, DocEntry(d).row, now)]);
      }
      return !f;
    }

    method DeleteDocument(id: int, docID: string) returns (ok: bool)
      requires id in db.rows
      modifies this
      ensures ok ==> db == SetDocs(old(db), id, old(db).rows[id].docs - {docID})
      ensures old(faultIn) < 0 ==> faultIn < 0 && ok
    {
      var f := Fails();
      if !f {
        db := SetDocs(db, id, db.rows[id].docs - {docID});
      }
      return !f;
    }

    method ListRepoPageHashes(id: int) returns (res: Result<seq<(string, string)>>)
      modifies this`faultIn
      ensures res.Ok? ==> HashRows(res.value, RowsAt(db, id).pages)
      ensures old(faultIn) < 0 ==> faultIn < 0 && res.Ok?
    {
      var f := Fails();
      if f {
        return Err("list page hashes");
      }
      var rows := ListHashes(RowsAt(db, id).pages);
      return Ok(rows);
    }

    method UpsertRepoPage(id: int, p: Page, now: int) returns (ok: bool)
      requires id in db.rows
      modifies this
      ensures ok ==> db == SetPages(old(db), id, old(db).rows[id].pages[p.path := Stored(p.contentHash, PageEntry(p).row, now)])
      ensures old(faultIn) < 0 ==> faultIn < 0 && ok
    {
      var f := Fails();
      if !f {
        db := SetPages(db, id, db.rows[id].pages[p.path := Stored(p.contentHash, PageEntry(p).row, now)]);
      }
      return !f;
    }

    method DeleteRepoPage(id: int, path: string) returns (ok: bool)
      requires id in db.rows
      modifies this
      ensures ok ==> db == SetPages(old(db), id, old(db).rows[id].pages - {path})
      ensures old(faultIn) < 0 ==> faultIn < 0 && ok
    {
      var f := Fails();
      if !f {
        db := SetPages(db, id, db.rows[id].pages - {path});
      }
      return !f;
    }
  }

  /** Some listing of a set: SELECT without ORDER BY, or a Go range over a map. */
  method Listed<T(==)>(s: set<T>) returns (list: seq<T>)
    ensures ListsSet(list, s)
  {
    list := [];
    var todo := s;
    while todo != {}
      invariant todo <= s && multiset(list) == multiset(s - todo)
      decreases todo
    {
      var k :| k in todo;
      assert s - (todo - {k}) == (s - todo) + {k};
      todo := todo - {k};
      list := list + [k];
    }
    assert s - {} == s;
  }

  lemma ListsIff<T(!new)>(list: seq<T>, s: set<T>)
    requires ListsSet(list, s)
    ensures forall k :: k in list <==> k in s
    ensures forall i, j :: 0 <= i < j < |list| ==> list[i] != list[j]
    ensures |list| == |s|
  {
    assert forall k :: k in list <==> k in multiset(list);
    assert |multiset(list)| == |list|;
    forall i, j | 0 <= i < j < |list| ensures list[i] != list[j] {
      assert list == list[..i] + [list[i]] + list[i + 1..j] + [list[j]] + list[j + 1..];
      assert multiset(list)[list[i]] <= 1;
    }
  }

  /** A listing of (key, hash) pairs covers the table, once each. */
  predicate HashRows<V>(rows: seq<(string, string)>, t: Table<V>) {
    && (forall i :: 0 <= i < |rows| ==> rows[i].0 in t && rows[i].1 == t[rows[i].0].hash)
    && (forall k :: k in t ==> exists i :: 0 <= i < |rows| && rows[i].0 == k)
  }

  method ListHashes<V>(t: Table<V>) returns (rows: seq<(string, string)>)
    ensures HashRows(rows, t)
  {
    var keys := Listed(t.Keys);
    ListsIff(keys, t.Keys);
    rows := [];
    for n := 0 to |keys|
      invariant |rows| == n
      invariant forall i :: 0 <= i < n ==> rows[i] == (keys[i], t[keys[i]].hash)
    {
      assert keys[n] in keys;
      rows := rows + [(keys[n], t[keys[n]].hash)];
    }
  }

  /** The hash snapshot the gate compares against. */
  method Snapshot<V>(rows: seq<(string, string)>, ghost t: Table<V>) returns (current: map<string, string>)
    requires HashRows(rows, t)
    ensures current == map k | k in t :: t[k].hash
  {
    current := map[];
    for n := 0 to |rows|
      invariant forall k :: k in current <==> exists i :: 0 <= i < n && rows[i].0 == k
      invariant forall k :: k in current ==> k in t && current[k] == t[k].hash
    {
      current := current[rows[n].0 := rows[n].1];
    }
    assert current.Keys == t.Keys;
  }

  // ---------------------------------------------------------------- the three reconcile loops

  function Gone(names: seq<string>, keep: set<string>): set<string> {
    set k | k in names && k !in keep
  }

  lemma GoneStep(names: seq<string>, keep: set<string>, i: nat)
    requires i < |names| && forall a, b :: 0 <= a < b < |names| ==> names[a] != names[b]
    ensures Gone(names[..i + 1], keep) == Gone(names[..i], keep) + (if names[i] in keep then {} else {names[i]})
    ensures names[i] !in names[..i]
  {
    assert names[..i + 1] == names[..i] + [names[i]];
  }

  /** First half of reconcileDocTypes: every desired type is written. */
  method UpsertTypes(tx: Tx, id: int, desired: seq<DocTypeInput>) returns (ok: bool, keep: set<string>)
    requires id in tx.db.rows
    modifies tx
    ensures ok ==> tx.db == SetTypes(old(tx.db), id, old(tx.db).rows[id].types + TypesTable(desired))
    ensures ok ==> keep == TypesTable(desired).Keys
    ensures old(tx.faultIn) < 0 ==> ok && tx.faultIn < 0
  {
    ghost var was := tx.db;
    ghost var cur := was.rows[id].types;
    SetSelf(was, id);
    assert cur + map[] == cur;
    keep := {};
    for i := 0 to |desired|
      invariant tx.db == SetTypes(was, id, cur + TypesTable(desired[..i]))
      invariant keep == TypesTable(desired[..i]).Keys
      invariant old(tx.faultIn) < 0 ==> tx.faultIn < 0
    {
      assert desired[..i + 1][..i] == desired[..i];
      ghost var table := cur + TypesTable(desired[..i]);
      SetTypesTwice(was, id, table, table[desired[i].name := desired[i]]);
      assert table[desired[i].name := desired[i]] == cur + TypesTable(desired[..i + 1]);
      keep := keep + {desired[i].name};
      ok := tx.UpsertDocType(id, desired[i]);
      if !ok {
        return false, keep;
      }
    }
    assert desired[..|desired|] == desired;
    return true, keep;
  }

  lemma MinusTwice<V>(m: map<string, V>, a: set<string>, b: set<string>)
    ensures m - a - b == m - (a + b)
  {
  }

  /** Second half: the listed types that are not desired are deleted. */
  method DeleteTypes(tx: Tx, id: int, existing: seq<string>, keep: set<string>) returns (ok: bool, deleted: nat)
    requires id in tx.db.rows
    requires forall a, b :: 0 <= a < b < |existing| ==> existing[a] != existing[b]
    modifies tx
    ensures ok ==> tx.db == SetTypes(old(tx.db), id, old(tx.db).rows[id].types - Gone(existing, keep))
    ensures ok ==> deleted == |Gone(existing, keep)|
    ensures old(tx.faultIn) < 0 ==> ok && tx.faultIn < 0
  {
    ghost var was := tx.db;
    ghost var full := was.rows[id].types;
    SetSelf(was, id);
    assert full - Gone(existing[..0], keep) == full;
    deleted := 0;
    for i := 0 to |existing|
      invariant tx.db == SetTypes(was, id, full - Gone(existing[..i], keep))
      invariant deleted == |Gone(existing[..i], keep)|
      invariant old(tx.faultIn) < 0 ==> tx.faultIn < 0
    {
      GoneStep(existing, keep, i);
      ghost var done := Gone(existing[..i], keep);
      if existing[i] in keep {
        assert done + {} == done;
        continue;
      }
      SetTypesTwice(was, id, full - done, full - done - {existing[i]});
      MinusTwice(full, done, {existing[i]});
      ok := tx.DeleteDocType(id, existing[i]);
      if !ok {
        return false, deleted;
      }
      deleted := deleted + 1;
    }
    assert existing[..|existing|] == existing;
    return true, deleted;
  }

  lemma GoneIsRest(names: seq<string>, keep: set<string>, all: set<string>)
    requires forall k :: k in names <==> k in all
    ensures Gone(names, keep) == all - keep
  {
  }

  method ReconcileDocTypes(tx: Tx, id: int, desired: seq<DocTypeInput>, res0: ReconcileResult) returns (ok: bool, res: ReconcileResult)
    requires id in tx.db.rows
    modifies tx
    ensures ok ==> tx.db == SetTypes(old(tx.db), id, TypesTable(desired))
    ensures ok ==> TypesReported(res, old(tx.db).rows[id].types, desired)
    ensures res == res0.(typesUpserted := res.typesUpserted, typesDeleted := res.typesDeleted)
    ensures old(tx.faultIn) < 0 ==> ok && tx.faultIn < 0
  {
    res := res0;
    ghost var was := tx.db;
    var existing := tx.ListDocTypes(id);
    if existing.Err? {
      return false, res;
    }
    ListsIff(existing.value, was.rows[id].types.Keys);
    var keep, deleted;
    ok, keep := UpsertTypes(tx, id, desired);
    if !ok {
      return false, res;
    }
    ok, deleted := DeleteTypes(tx, id, existing.value, keep);
    if !ok {
      return false, res;
    }
    GoneIsRest(existing.value, keep, was.rows[id].types.Keys);
    TypesTwoPasses(was, id, desired, Gone(existing.value, keep));
    res := res.(typesUpserted := |desired|, typesDeleted := deleted);
    return true, res;
  }

  /** First half of reconcileDocuments: new or changed documents are written, judged against the snapshot. */
  method UpsertDocuments(tx: Tx, id: int, desired: seq<DocInput>, current: map<string, string>, now: int)
    returns (ok: bool, keep: set<string>, upserted: seq<string>, same: nat)
    requires id in tx.db.rows && current == map k | k in tx.db.rows[id].docs :: tx.db.rows[id].docs[k].hash
    modifies tx
    ensures ok ==> tx.db == SetDocs(old(tx.db), id, Upserts(old(tx.db).rows[id].docs, DocEntries(desired), now))
    ensures ok ==> keep == KeySet(DocEntries(desired))
    ensures ok ==> upserted == UpsertedKeys(old(tx.db).rows[id].docs, DocEntries(desired))
    ensures ok ==> same == Unchanged(old(tx.db).rows[id].docs, DocEntries(desired))
    ensures old(tx.faultIn) < 0 ==> ok && tx.faultIn < 0
  {
    ghost var was := tx.db;
    ghost var cur := was.rows[id].docs;
    ghost var all := DocEntries(desired);
    SetSelf(was, id);
    keep, upserted, same := {}, [], 0;
    for i := 0 to |desired|
      invariant tx.db == SetDocs(was, id, Upserts(cur, all[..i], now))
      invariant keep == KeySet(all[..i])
      invariant upserted == UpsertedKeys(cur, all[..i])
      invariant same == Unchanged(cur, all[..i])
      invariant old(tx.faultIn) < 0 ==> tx.faultIn < 0
    {
      var d := desired[i];
      assert all[..i + 1] == all[..i] + [DocEntry(d)] && all[..i + 1][..i] == all[..i];
      KeySetSnoc(all[..i], DocEntry(d));
      keep := keep + {d.docID};
      if d.docID in current && current[d.docID] == d.contentHash {
        same := same + 1;
        assert upserted + [] == upserted;
        continue;
      }
      ghost var table := Upserts(cur, all[..i], now);
      SetDocsTwice(was, id, table, table[d.docID := Stored(d.contentHash, DocEntry(d).row, now)]);
      ok := tx.UpsertDocument(id, d, now);
      if !ok {
        return false, keep, upserted, same;
      }
      upserted := upserted + [d.docID];
    }
    assert all[..|desired|] == all;
    return true, keep, upserted, same;
  }

  /** Second half: documents of the snapshot that are not desired are deleted, in no particular order. */
  method DeleteAbsentDocuments(tx: Tx, id: int, snapshot: set<string>, keep: set<string>) returns (ok: bool, deleted: seq<string>)
    requires id in tx.db.rows
    modifies tx
    ensures ok ==> tx.db == SetDocs(old(tx.db), id, old(tx.db).rows[id].docs - (snapshot - keep))
    ensures ok ==> ListsSet(deleted, snapshot - keep)
    ensures old(tx.faultIn) < 0 ==> ok && tx.faultIn < 0
  {
    ghost var was := tx.db;
    ghost var full := was.rows[id].docs;
    SetSelf(was, id);
    deleted := [];
    var todo := snapshot;
    ghost var done: set<string> := {};
    assert full - done == full;
    while todo != {}
      invariant todo <= snapshot && done == snapshot - keep - todo
      invariant tx.db == SetDocs(was, id, full - done)
      invariant multiset(deleted) == multiset(done)
      invariant old(tx.faultIn) < 0 ==> tx.faultIn < 0
      decreases todo
    {
      var k :| k in todo;
      todo := todo - {k};
      if k in keep {
        assert done == snapshot - keep - todo;
        continue;
      }
      assert full - done - {k} == full - (done + {k});
      SetDocsTwice(was, id, full - done, full - done - {k});
      ok := tx.DeleteDocument(id, k);
      if !ok {
        return false, deleted;
      }
      done := done + {k};
      assert done == snapshot - keep - todo;
      deleted := deleted + [k];
    }
    assert done == snapshot - keep;
    return true, deleted;
  }

  method ReconcileDocuments(tx: Tx, id: int, desired: seq<DocInput>, now: int, res0: ReconcileResult) returns (ok: bool, res: ReconcileResult)
    requires id in tx.db.rows
    modifies tx
    ensures ok ==> tx.db == SetDocs(old(tx.db), id, Reconciled(old(tx.db).rows[id].docs, DocEntries(desired), now))
    ensures ok ==> DocsReported(res, old(tx.db).rows[id].docs, DocEntries(desired))
    ensures res == res0.(docsUpserted := res.docsUpserted, docsDeleted := res.docsDeleted, docsUnchanged := res.docsUnchanged,
                         upsertedDocIDs := res.upsertedDocIDs, deletedDocIDs := res.deletedDocIDs)
    ensures old(tx.faultIn) < 0 ==> ok && tx.faultIn < 0
  {
    res := res0;
    ghost var was := tx.db;
    ghost var cur := was.rows[id].docs;
    var rows := tx.ListDocumentHashes(id);
    if rows.Err? {
      return false, res;
    }
    var current := Snapshot(rows.value, cur);
    var keep, upserted, same, deleted;
    ok, keep, upserted, same := UpsertDocuments(tx, id, desired, current, now);
    if !ok {
      return false, res;
    }
    ok, deleted := DeleteAbsentDocuments(tx, id, current.Keys, keep);
    if !ok {
      return false, res;
    }
    assert current.Keys - keep == Removed(cur, DocEntries(desired));
    DocsTwoPasses(was, id, DocEntries(desired), now);
    res := res.(docsUpserted := |upserted|, docsDeleted := |deleted|, docsUnchanged := same,
                upsertedDocIDs := upserted, deletedDocIDs := deleted);
    return true, res;
  }

  /** First half of reconcileRepoPages: new or changed pages are written, judged against the snapshot. */
  method UpsertPages(tx: Tx, id: int, desired: seq<Page>, current: map<string, string>, now: int)
    returns (ok: bool, keep: set<string>, upserted: seq<string>, same: nat)
    requires id in tx.db.rows && current == map k | k in tx.db.rows[id].pages :: tx.db.rows[id].pages[k].hash
    modifies tx
    ensures ok ==> tx.db == SetPages(old(tx.db), id, Upserts(old(tx.db).rows[id].pages, PageEntries(desired), now))
    ensures ok ==> keep == KeySet(PageEntries(desired))
    ensures ok ==> upserted == UpsertedKeys(old(tx.db).rows[id].pages, PageEntries(desired))
    ensures ok ==> same == Unchanged(old(tx.db).rows[id].pages, PageEntries(desired))
    ensures old(tx.faultIn) < 0 ==> ok && tx.faultIn < 0
  {
    ghost var was := tx.db;
    ghost var cur := was.rows[id].pages;
    ghost var all := PageEntries(desired);
    SetSelf(was, id);
    keep, upserted, same := {}, [], 0;
    for i := 0 to |desired|
      invariant tx.db == SetPages(was, id, Upserts(cur, all[..i], now))
      invariant keep == KeySet(all[..i])
      invariant upserted == UpsertedKeys(cur, all[..i])
      invariant same == Unchanged(cur, all[..i])
      invariant old(tx.faultIn) < 0 ==> tx.faultIn < 0
    {
      var p := desired[i];
      assert all[..i + 1] == all[..i] + [PageEntry(p)] && all[..i + 1][..i] == all[..i];
      KeySetSnoc(all[..i], PageEntry(p));
      keep := keep + {p.path};
      if p.path in current && current[p.path] == p.contentHash {
        same := same + 1;
        assert upserted + [] == upserted;
        continue;
      }
      ghost var table := Upserts(cur, all[..i], now);
      SetPagesTwice(was, id, table, table[p.path := Stored(p.contentHash, PageEntry(p).row, now)]);
      ok := tx.UpsertRepoPage(id, p, now);
      if !ok {
        return false, keep, upserted, same;
      }
      upserted := upserted + [p.path];
    }
    assert all[..|desired|] == all;
    return true, keep, upserted, same;
  }

  /** Second half: pages of the snapshot that are not desired are deleted, in no particular order. */
  method DeleteAbsentPages(tx: Tx, id: int, snapshot: set<string>, keep: set<string>) returns (ok: bool, deleted: seq<string>)
    requires id in tx.db.rows
    modifies tx
    ensures ok ==> tx.db == SetPages(old(tx.db), id, old(tx.db).rows[id].pages - (snapshot - keep))
    ensures ok ==> ListsSet(deleted, snapshot - keep)
    ensures old(tx.faultIn) < 0 ==> ok && tx.faultIn < 0
  {
    ghost var was := tx.db;
    ghost var full := was.rows[id].pages;
    SetSelf(was, id);
    deleted := [];
    var todo := snapshot;
    ghost var done: set<string> := {};
    assert full - done == full;
    while todo != {}
      invariant todo <= snapshot && done == snapshot - keep - todo
      invariant tx.db == SetPages(was, id, full - done)
      invariant multiset(deleted) == multiset(done)
      invariant old(tx.faultIn) < 0 ==> tx.faultIn < 0
      decreases todo
    {
      var k :| k in todo;
      todo := todo - {k};
      if k in keep {
        assert done == snapshot - keep - todo;
        continue;
      }
      assert full - done - {k} == full - (done + {k});
      SetPagesTwice(was, id, full - done, full - done - {k});
      ok := tx.DeleteRepoPage(id, k);
      if !ok {
        return false, deleted;
      }
      done := done + {k};
      assert done == snapshot - keep - todo;
      deleted := deleted + [k];
    }
    assert done == snapshot - keep;
    return true, deleted;
  }

  method ReconcileRepoPages(tx: Tx, id: int, desired: seq<Page>, now: int, res0: ReconcileResult) returns (ok: bool, res: ReconcileResult)
    requires id in tx.db.rows
    modifies tx
    ensures ok ==> tx.db == SetPages(old(tx.db), id, Reconciled(old(tx.db).rows[id].pages, PageEntries(desired), now))
    ensures ok ==> PagesReported(res, old(tx.db).rows[id].pages, PageEntries(desired))
    ensures res == res0.(pagesUpserted := res.pagesUpserted, pagesDeleted := res.pagesDeleted, pagesUnchanged := res.pagesUnchanged,
                         upsertedPagePaths := res.upsertedPagePaths, deletedPagePaths := res.deletedPagePaths)
    ensures old(tx.faultIn) < 0 ==> ok && tx.faultIn < 0
  {
    res := res0;
    ghost var was := tx.db;
    ghost var cur := was.rows[id].pages;
    var rows := tx.ListRepoPageHashes(id);
    if rows.Err? {
      return false, res;
    }
    var current := Snapshot(rows.value, cur);
    var keep, upserted, same, deleted;
    ok, keep, upserted, same := UpsertPages(tx, id, desired, current, now);
    if !ok {
      return false, res;
    }
    ok, deleted := DeleteAbsentPages(tx, id, current.Keys, keep);
    if !ok {
      return false, res;
    }
    assert current.Keys - keep == Removed(cur, PageEntries(desired));
    PagesTwoPasses(was, id, PageEntries(desired), now);
    res := res.(pagesUpserted := |upserted|, pagesDeleted := |deleted|, pagesUnchanged := same,
                upsertedPagePaths := upserted, deletedPagePaths := deleted);
    return true, res;
  }

  // ---------------------------------------------------------------- the store

  const ZERO := ReconcileResult(0, 0, 0, 0, 0, 0, 0, 0, 0, [], [], [], [])

  class Store {
    var db: Db
    var nextRepoID: int

    constructor (db: Db, nextRepoID: int)
      ensures this.db == db && this.nextRepoID == nextRepoID
    {
      this.db := db;
      this.nextRepoID := nextRepoID;
    }

    /** One transaction: on success the whole desired state is committed and reported, on any error no row
        changes. Only the serial advances either way. `faultIn` is the statement at which the driver fails. */
    method ReconcileRepo(input: ReconcileInput, now: int, faultIn: int) returns (r: Result<ReconcileResult>)
      modifies this
      ensures r.Ok? ==> && input.repo.installation in old(db).installations
                        && db == Committed(old(db), old(nextRepoID), input, now)
                        && Reports(r.value, old(db), old(nextRepoID), input)
      ensures r.Err? ==> db == old(db)
      ensures nextRepoID == old(nextRepoID) + 1
      ensures faultIn < 0 ==> (r.Ok? <==> input.repo.installation in old(db).installations)
    {
      var tx := new Tx(db, faultIn);
      var next := nextRepoID;
      nextRepoID := nextRepoID + 1;
      var committed := false;
      var res := ZERO;
      CommittedInSteps(db, next, input, now);
      var id := tx.UpsertRepo(input.repo, next);
      if id.Err? {
        return Err(id.error);
      }
      res := res.(repoID := id.value);
      var ok;
      ok, res := ReconcileDocTypes(tx, id.value, input.docTypes, res);
      if !ok {
        return Err("doc types");
      }
      ok, res := ReconcileDocuments(tx, id.value, input.documents, now, res);
      if !ok {
        return Err("documents");
      }
      ok, res := ReconcileRepoPages(tx, id.value, input.pages, now, res);
      if !ok {
        return Err("pages");
      }
      var f := tx.Fails();
      if f {
        return Err("commit tx");
      }
      committed := true;
      db := tx.db;
      return Ok(res);
    }

    method UpsertInstallation(id: int, row: Installation)
      modifies this`db
      ensures db == old(db).(installations := old(db).installations[id := row])
    {
      db := db.(installations := db.installations[id := row]);
    }

    method DeleteInstallation(id: int)
      modifies this`db
      ensures db == Uninstalled(old(db), id)
      ensures OnlyWithout(old(db), db, id)
    {
      UninstalledIs(db, id);
      db := Uninstalled(db, id);
    }

    /** The deleted repo's id, or None when there is no such row. */
    method DeleteRepo(owner: string, name: string) returns (id: Option<int>)
      modifies this`db
      ensures id == if (owner, name) in old(db).repos then Some(old(db).repos[(owner, name)].id) else None
      ensures db == DropRepos(old(db), {(owner, name)})
      ensures OnlyWithoutRepo(old(db), db, (owner, name))
    {
      id := if (owner, name) in db.repos then Some(db.repos[(owner, name)].id) else None;
      db := DropRepos(db, {(owner, name)});
    }

    /** True exactly when the delivery id was not there before; it is there afterwards. */
    method RecordDelivery(deliveryID: string) returns (isNew: bool)
      modifies this`db
      ensures isNew == (deliveryID !in old(db).deliveries)
      ensures db == old(db).(deliveries := old(db).deliveries + {deliveryID})
    {
      isNew := deliveryID !in db.deliveries;
      db := db.(deliveries := db.deliveries + {deliveryID});
    }
  }
}
