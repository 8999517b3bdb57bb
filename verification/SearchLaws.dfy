/** What a search finds: the filter text, the mirror and the rows together. */
module SearchLaws {
  import opened Text
  import opened Config
  import opened Gate
  import opened Tables
  import opened IndexKeys
  import opened SearchFilter
  import opened Mirror
  import opened Scope
  import opened MirrorLaws

  /** One facet: empty means not asked for. */
  predicate Facet(asked: string, value: string) {
    asked == "" || value == asked
  }

  predicate RowFacets(p: SearchParams, l: Label, docType: string, status: string, author: string, src: Source) {
    && Facet(p.repo, RepoText(l)) && Facet(p.docType, docType) && Facet(p.status, status) && Facet(p.author, author)
    && Facet(p.source, SourceText(src))
  }

  /** A stored document with this key that the search asks for. */
  predicate DocFound(p: SearchParams, l: Label, id: int, rows: Rows, k: string) {
    exists d :: d in rows.docs && PrimaryKey(id, d) == k
      && RowFacets(p, l, rows.docs[d].row.docType, NullableText(rows.docs[d].row.status), NullableText(rows.docs[d].row.author), SourceDoc)
  }

  /** A stored page with this key that the search asks for; a page has no type, status or author. */
  predicate PageFound(w: World, p: SearchParams, l: Label, id: int, rows: Rows, k: string) {
    exists path :: path in rows.pages && PagePrimaryKey(w.digest, id, path) == k && RowFacets(p, l, "", "", "", SourcePage)
  }

  lemma {:induction false} MatchesAll(d: IndexDoc, a: seq<Clause>, b: seq<Clause>)
    ensures (forall i :: 0 <= i < |a + b| ==> Matches(d, (a + b)[i])) <==>
            (forall i :: 0 <= i < |a| ==> Matches(d, a[i])) && (forall i :: 0 <= i < |b| ==> Matches(d, b[i]))
  {
    assert forall i :: 0 <= i < |a| ==> (a + b)[i] == a[i];
    assert forall i :: 0 <= i < |b| ==> (a + b)[|a| + i] == b[i];
  }

  predicate All(d: IndexDoc, cs: seq<Clause>) {
    forall i :: 0 <= i < |cs| ==> Matches(d, cs[i])
  }

  lemma AllFacet(d: IndexDoc, field: string, value: string)
    ensures All(d, FacetClause(field, value)) <==> Facet(value, FieldOf(d, field))
  {
    if value != "" {
      assert FacetClause(field, value)[0] == Eq(field, value);
    }
  }

  /** The clauses of a search with a scope, one by one. */
  lemma AllClauses(d: IndexDoc, p: SearchParams)
    requires p.allowed.Some? && p.allowed.value != []
    ensures All(d, ClausesOf(p)) <==>
            && d.repoID in p.allowed.value && Facet(p.repo, d.repo) && Facet(p.docType, d.docType)
            && Facet(p.status, d.status) && Facet(p.author, d.author) && Facet(p.source, SourceText(d.source))
  {
    var scope := [RepoIn(p.allowed.value)];
    var repo, type_, status := FacetClause("repo", p.repo), FacetClause("type", p.docType), FacetClause("status", p.status);
    var author, source := FacetClause("author", p.author), FacetClause("source", p.source);
    MatchesAll(d, repo, type_);
    MatchesAll(d, repo + type_, status);
    MatchesAll(d, repo + type_ + status, author);
    MatchesAll(d, repo + type_ + status + author, source);
    MatchesAll(d, scope, FacetClauses(p));
    assert scope[0] == RepoIn(p.allowed.value);
    AllFacet(d, "repo", p.repo);
    AllFacet(d, "type", p.docType);
    AllFacet(d, "status", p.status);
    AllFacet(d, "author", p.author);
    AllFacet(d, "source", p.source);
  }

  lemma ServedIs(index: SearchIndex, p: SearchParams, k: string)
    ensures Served(index, FilterText(p), k) <==> k in index && All(index[k], ClausesOf(p))
  {
    FilterRoundTrips(p);
  }

  predicate HoldsDocs(m: SearchIndex, l: Label, id: int, rows: Rows, k: string) {
    forall d :: d in rows.docs && PrimaryKey(id, d) == k ==> k in m && m[k] == ToIndexDoc(l, id, d, rows.docs[d])
  }

  predicate HoldsPages(w: World, m: SearchIndex, l: Label, id: int, rows: Rows, k: string) {
    forall path :: path in rows.pages && PagePrimaryKey(w.digest, id, path) == k ==>
      k in m && m[k] == ToIndexPage(w.digest, l, id, path, rows.pages[path])
  }

  predicate HasRow(w: World, id: int, rows: Rows, k: string) {
    || (exists d :: d in rows.docs && PrimaryKey(id, d) == k)
    || (exists path :: path in rows.pages && PagePrimaryKey(w.digest, id, path) == k)
  }

  lemma ImageHoldsPages(w: World, l: Label, id: int, rows: Rows, k: string)
    requires Sound(w) && Fits(w, rows)
    ensures HoldsPages(w, Image(w.digest, l, id, rows), l, id, rows, k)
  {
    forall path | path in rows.pages && PagePrimaryKey(w.digest, id, path) == k
      ensures var m := Image(w.digest, l, id, rows); k in m && m[k] == ToIndexPage(w.digest, l, id, path, rows.pages[path])
    {
      PageImageAt(w.digest, l, id, rows.pages, w.paths, path);
    }
  }

  lemma ImageHoldsDocs(w: World, l: Label, id: int, rows: Rows, k: string)
    requires Sound(w) && Fits(w, rows)
    ensures HoldsDocs(Image(w.digest, l, id, rows), l, id, rows, k)
  {
    forall d | d in rows.docs && PrimaryKey(id, d) == k
      ensures var m := Image(w.digest, l, id, rows); k in m && m[k] == ToIndexDoc(l, id, d, rows.docs[d])
    {
      FamiliesApart(w.digest, id, w.docIDs, w.paths, id);
      assert k in DocKeys(id, w.docIDs) && PageKeys(w.digest, id, rows.pages.Keys) <= PageKeys(w.digest, id, w.paths);
    }
  }

  /** What the image holds under a key is the record of a document or of a page with that key. */
  lemma ImageIsDocOrPage(w: World, l: Label, id: int, rows: Rows, k: string)
    requires Sound(w) && Fits(w, rows)
    ensures var m := Image(w.digest, l, id, rows);
            HoldsDocs(m, l, id, rows, k) && HoldsPages(w, m, l, id, rows, k) && (k in m ==> HasRow(w, id, rows, k))
  {
    ImageHoldsDocs(w, l, id, rows, k);
    ImageHoldsPages(w, l, id, rows, k);
  }

  /** In any reachable state, under every key of an allowed repo that is neither dirty nor being synced, the
      search serves a record exactly when there is a stored document or page with that key and the facets asked
      for: nothing matching is missing and nothing else is found. */
  lemma SearchFindsExactlyTheRows(w: World, events: seq<Event>, l: Label, p: SearchParams, k: string)
    requires Sound(w) && AllKnown(w, events)
    requires var s := Run(w, INITIAL, events);
             && l in s.db.repos && Owns(s.db.repos[l].id, k) && k !in s.dirty && k !in Pending(w, s, l)
             && p.allowed.Some? && s.db.repos[l].id in p.allowed.value
    ensures var s := Run(w, INITIAL, events);
            var id := s.db.repos[l].id;
            Served(s.index, FilterText(p), k) <==>
              DocFound(p, l, id, RowsAt(s.db, id), k) || PageFound(w, p, l, id, RowsAt(s.db, id), k)
  {
    InitialInv(w);
    RunKeeps(w, INITIAL, events);
    FoundInState(w, Run(w, INITIAL, events), l, p, k);
  }

  lemma FoundInState(w: World, s: State, l: Label, p: SearchParams, k: string)
    requires Inv(w, s) && l in s.db.repos && Owns(s.db.repos[l].id, k) && k !in s.dirty && k !in Pending(w, s, l)
    requires p.allowed.Some? && s.db.repos[l].id in p.allowed.value
    ensures var id := s.db.repos[l].id;
            Served(s.index, FilterText(p), k) <==>
              DocFound(p, l, id, RowsAt(s.db, id), k) || PageFound(w, p, l, id, RowsAt(s.db, id), k)
  {
    var id := s.db.repos[l].id;
    var rows := RowsAt(s.db, id);
    assert Mirrors(w, s, l);
    assert AgreeAt(s.index, ImageOf(w, s, l), k);
    ServedIs(s.index, p, k);
    ImageIsDocOrPage(w, l, id, rows, k);
    if k in s.index {
      AllClauses(s.index[k], p);
    }
  }

  /** And a served record shows the row's own title, path and body. */
  lemma ServedShowsTheRow(w: World, s: State, l: Label, k: string)
    requires Inv(w, s) && l in s.db.repos && Owns(s.db.repos[l].id, k) && k !in s.dirty && k !in Pending(w, s, l) && k in s.index
    ensures var id, rows, d := s.db.repos[l].id, RowsAt(s.db, s.db.repos[l].id), s.index[k];
            && d.repo == RepoText(l) && d.repoID == id
            && if d.source.SourceDoc?
               then d.docID in rows.docs && PrimaryKey(id, d.docID) == k && ShowsDoc(d, rows.docs[d.docID])
               else d.path in rows.pages && PagePrimaryKey(w.digest, id, d.path) == k && ShowsPage(d, rows.pages[d.path])
  {
    assert Mirrors(w, s, l);
    assert AgreeAt(s.index, ImageOf(w, s, l), k);
    ImageIsDocOrPage(w, l, s.db.repos[l].id, RowsAt(s.db, s.db.repos[l].id), k);
  }

  predicate ShowsDoc(d: IndexDoc, row: Stored<DocRow>) {
    d.title == row.row.title && d.path == row.row.path && d.body == row.row.rawMD && d.created == row.row.created && d.updatedAt == row.at
  }

  predicate ShowsPage(d: IndexDoc, row: Stored<PageRow>) {
    d.title == row.row.title && d.body == row.row.rawMD && d.updatedAt == row.at && d.docID == "" && d.created == None
  }
}
