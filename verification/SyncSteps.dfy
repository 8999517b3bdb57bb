/** The four steps of one index sync taken together: which answers make it succeed, and what each failure leaves. */
module SyncSteps {
  import opened Text
  import opened Config
  import opened Pages
  import opened Documents
  import opened Gate
  import opened Tables
  import opened IndexKeys
  import opened Mirror

  /** How the environment answers one run. */
  datatype Env = Env(now: int, faultIn: int, delete: Outcome, docsOk: bool, pagesOk: bool, add: Outcome)

  const FAULTLESS := Env(0, -1, Done, true, true, Done)

  predicate DeleteOk(w: World, y: Sync, env: Env) {
    Gone(w, y) == {} || env.delete.Done?
  }

  predicate ReadOk(y: Sync, env: Env) {
    (y.docs == {} || env.docsOk) && (y.pages == {} || env.pagesOk)
  }

  ghost function Records(w: World, l: Label, y: Sync, rows: Rows): SearchIndex {
    DocRecords(l, y, rows) + PageRecords(w, l, y, rows)
  }

  ghost predicate AddOk(w: World, l: Label, y: Sync, rows: Rows, env: Env) {
    Records(w, l, y, rows) == map[] || env.add.Done?
  }

  ghost predicate SyncOk(w: World, l: Label, y: Sync, rows: Rows, env: Env) {
    DeleteOk(w, y, env) && ReadOk(y, env) && AddOk(w, l, y, rows, env)
  }

  /** The index one sync leaves. */
  ghost function IndexAfter(w: World, index: SearchIndex, l: Label, y: Sync, rows: Rows, env: Env): SearchIndex {
    if !DeleteOk(w, y, env) then Tell(index, index - Gone(w, y), env.delete)
    else if !ReadOk(y, env) || Records(w, l, y, rows) == map[] then index - Gone(w, y)
    else Tell(index - Gone(w, y), index - Gone(w, y) + Records(w, l, y, rows), env.add)
  }

  /** The machine's sync steps with these answers and nothing between them. */
  ghost function Synced(w: World, s: State, l: Label, env: Env): State {
    Apply(w, Apply(w, Apply(w, Apply(w, s, SyncDelete(l, env.delete)), SyncReadDocs(l, env.docsOk)),
                   SyncReadPages(l, env.pagesOk)), SyncIndex(l, env.add))
  }

  /** The commit and the sync after it. */
  ghost function Played(w: World, s: State, input: ReconcileInput, env: Env): State {
    Synced(w, Apply(w, s, Ingest(input, env.now, false)), LabelOf(input.repo), env)
  }

  /** The state s with l's sync y at a stage and this index. */
  function At(s: State, l: Label, y: Sync, stage: Stage, index: SearchIndex): State {
    s.(index := index, syncs := s.syncs[l := y.(stage := stage)])
  }

  lemma AdvanceAt(s: State, l: Label, y: Sync, a: Stage, b: Stage, index: SearchIndex)
    ensures Advance(At(s, l, y, a, index), l, b) == At(s, l, y, b, index)
  {
    assert At(s, l, y, a, index).syncs[l := y.(stage := b)] == s.syncs[l := y.(stage := b)];
  }

  lemma DeleteOks(w: World, s: State, l: Label, y: Sync, env: Env)
    requires DeleteOk(w, y, env)
    ensures Apply(w, At(s, l, y, Fresh, s.index), SyncDelete(l, env.delete)) == At(s, l, y, Cleared, s.index - Gone(w, y))
  {
    AdvanceAt(s, l, y, Fresh, Cleared, s.index - Gone(w, y));
    assert Gone(w, y) == {} ==> s.index - Gone(w, y) == s.index;
    assert Gone(w, y.(stage := Fresh)) == Gone(w, y);
  }

  lemma ReadDocsOks(w: World, s: State, l: Label, y: Sync, index: SearchIndex, ok: bool)
    requires y.docs == {} || ok
    ensures Apply(w, At(s, l, y, Cleared, index), SyncReadDocs(l, ok)) ==
            At(s, l, y, DocsRead(DocRecords(l, y, RowsAt(s.db, y.id))), index)
  {
    var records := DocRecords(l, y, RowsAt(s.db, y.id));
    AdvanceAt(s, l, y, Cleared, DocsRead(records), index);
    assert y.docs == {} ==> records == map[];
  }

  lemma NoPages(w: World, l: Label, y: Sync, rows: Rows, docs: SearchIndex)
    requires y.pages == {}
    ensures docs + PageRecords(w, l, y, rows) == docs
  {
    assert PageRecords(w, l, y, rows) == map[];
  }

  lemma ReadPagesOks(w: World, s: State, l: Label, y: Sync, docs: SearchIndex, index: SearchIndex, ok: bool)
    requires y.pages == {} || ok
    ensures Apply(w, At(s, l, y, DocsRead(docs), index), SyncReadPages(l, ok)) ==
            At(s, l, y, AllRead(docs + PageRecords(w, l, y, RowsAt(s.db, y.id))), index)
  {
    AdvanceAt(s, l, y, DocsRead(docs), AllRead(docs + PageRecords(w, l, y, RowsAt(s.db, y.id))), index);
    if y.pages == {} {
      NoPages(w, l, y, RowsAt(s.db, y.id), docs);
    }
  }

  lemma AddOks(w: World, s: State, l: Label, y: Sync, records: SearchIndex, index: SearchIndex, env: Env)
    requires l in s.syncs && (records == map[] || env.add.Done?)
    ensures Apply(w, At(s, l, y, AllRead(records), index), SyncIndex(l, env.add)) ==
            s.(index := index + records, dirty := s.dirty - Reported(w, y), syncs := s.syncs - {l})
  {
    assert records == map[] ==> index + records == index;
    assert s.syncs[l := y.(stage := AllRead(records))] - {l} == s.syncs - {l};
    assert Gone(w, y.(stage := AllRead(records))) == Gone(w, y) && Upserted(w, y.(stage := AllRead(records))) == Upserted(w, y);
  }

  /** The sync is over and its keys are dirty. */
  function Failed(w: World, s: State, l: Label, y: Sync, index: SearchIndex): State {
    s.(index := index, dirty := s.dirty + Reported(w, y), syncs := s.syncs - {l})
  }

  /** Giving up at some stage of sync y. */
  lemma AbandonAt(w: World, s: State, l: Label, y: Sync, stage: Stage, index: SearchIndex)
    requires l in s.syncs
    ensures Abandon(w, At(s, l, y, stage, index), l) == Failed(w, s, l, y, index)
  {
    assert s.syncs[l := y.(stage := stage)] - {l} == s.syncs - {l};
    assert Gone(w, y.(stage := stage)) == Gone(w, y) && Upserted(w, y.(stage := stage)) == Upserted(w, y);
  }

  lemma DeleteFails(w: World, s: State, l: Label, y: Sync, env: Env)
    requires l in s.syncs && !DeleteOk(w, y, env)
    ensures Apply(w, At(s, l, y, Fresh, s.index), SyncDelete(l, env.delete)) ==
            Failed(w, s, l, y, Tell(s.index, s.index - Gone(w, y), env.delete))
  {
    assert Gone(w, y.(stage := Fresh)) == Gone(w, y);
    AbandonAt(w, s, l, y, Fresh, Tell(s.index, s.index - Gone(w, y), env.delete));
  }

  lemma ReadDocsFails(w: World, s: State, l: Label, y: Sync, index: SearchIndex)
    requires l in s.syncs && y.docs != {}
    ensures Apply(w, At(s, l, y, Cleared, index), SyncReadDocs(l, false)) == Failed(w, s, l, y, index)
  {
    AbandonAt(w, s, l, y, Cleared, index);
    assert ApplyReadDocs(w, At(s, l, y, Cleared, index), l, false) == Failed(w, s, l, y, index);
  }

  lemma ReadPagesFails(w: World, s: State, l: Label, y: Sync, docs: SearchIndex, index: SearchIndex)
    requires l in s.syncs && y.pages != {}
    ensures Apply(w, At(s, l, y, DocsRead(docs), index), SyncReadPages(l, false)) == Failed(w, s, l, y, index)
  {
    AbandonAt(w, s, l, y, DocsRead(docs), index);
    assert ApplyReadPages(w, At(s, l, y, DocsRead(docs), index), l, false) == Failed(w, s, l, y, index);
  }

  lemma AddFails(w: World, s: State, l: Label, y: Sync, records: SearchIndex, index: SearchIndex, env: Env)
    requires l in s.syncs && records != map[] && !env.add.Done?
    ensures Apply(w, At(s, l, y, AllRead(records), index), SyncIndex(l, env.add)) ==
            Failed(w, s, l, y, Tell(index, index + records, env.add))
  {
    AbandonAt(w, s, l, y, AllRead(records), Tell(index, index + records, env.add));
  }

  /** Steps after the sync is over change nothing. */
  lemma SyncOver(w: World, s: State, l: Label, y: Sync, index: SearchIndex, env: Env)
    ensures var t := Failed(w, s, l, y, index);
            && Apply(w, t, SyncReadDocs(l, env.docsOk)) == t
            && Apply(w, t, SyncReadPages(l, env.pagesOk)) == t
            && Apply(w, t, SyncIndex(l, env.add)) == t
  {
  }

  lemma SyncedWhenReadFails(w: World, s: State, l: Label, env: Env)
    requires l in s.syncs && s.syncs[l].stage.Fresh? && DeleteOk(w, s.syncs[l], env) && !ReadOk(s.syncs[l], env)
    ensures Synced(w, s, l, env) == Failed(w, s, l, s.syncs[l], s.index - Gone(w, s.syncs[l]))
  {
    var y := s.syncs[l];
    var index := s.index - Gone(w, y);
    assert s == At(s, l, y, Fresh, s.index);
    DeleteOks(w, s, l, y, env);
    SyncOver(w, s, l, y, index, env);
    if y.docs != {} && !env.docsOk {
      ReadDocsFails(w, s, l, y, index);
    } else {
      ReadDocsOks(w, s, l, y, index, env.docsOk);
      ReadPagesFails(w, s, l, y, DocRecords(l, y, RowsAt(s.db, y.id)), index);
    }
  }

  lemma SyncedWhenRead(w: World, s: State, l: Label, env: Env)
    requires l in s.syncs && s.syncs[l].stage.Fresh? && DeleteOk(w, s.syncs[l], env) && ReadOk(s.syncs[l], env)
    ensures var y := s.syncs[l];
            var records := Records(w, l, y, RowsAt(s.db, y.id));
            Synced(w, s, l, env) == Apply(w, At(s, l, y, AllRead(records), s.index - Gone(w, y)), SyncIndex(l, env.add))
  {
    var y := s.syncs[l];
    var index := s.index - Gone(w, y);
    assert s == At(s, l, y, Fresh, s.index);
    DeleteOks(w, s, l, y, env);
    ReadDocsOks(w, s, l, y, index, env.docsOk);
    ReadPagesOks(w, s, l, y, DocRecords(l, y, RowsAt(s.db, y.id)), index, env.pagesOk);
  }

  lemma SyncedWhenDeleteFails(w: World, s: State, l: Label, env: Env)
    requires l in s.syncs && s.syncs[l].stage.Fresh? && !DeleteOk(w, s.syncs[l], env)
    ensures var y := s.syncs[l];
            Synced(w, s, l, env) == Failed(w, s, l, y, Tell(s.index, s.index - Gone(w, y), env.delete))
  {
    var y := s.syncs[l];
    assert s == At(s, l, y, Fresh, s.index);
    DeleteFails(w, s, l, y, env);
    SyncOver(w, s, l, y, Tell(s.index, s.index - Gone(w, y), env.delete), env);
  }

  lemma SyncedWhenAddFails(w: World, s: State, l: Label, env: Env)
    requires l in s.syncs && s.syncs[l].stage.Fresh? && DeleteOk(w, s.syncs[l], env) && ReadOk(s.syncs[l], env)
    requires !AddOk(w, l, s.syncs[l], RowsAt(s.db, s.syncs[l].id), env)
    ensures var y := s.syncs[l];
            var records, index := Records(w, l, y, RowsAt(s.db, y.id)), s.index - Gone(w, y);
            Synced(w, s, l, env) == Failed(w, s, l, y, Tell(index, index + records, env.add))
  {
    var y := s.syncs[l];
    SyncedWhenRead(w, s, l, env);
    AddFails(w, s, l, y, Records(w, l, y, RowsAt(s.db, y.id)), s.index - Gone(w, y), env);
  }

  lemma SyncedWhenOk(w: World, s: State, l: Label, env: Env)
    requires l in s.syncs && s.syncs[l].stage.Fresh? && SyncOk(w, l, s.syncs[l], RowsAt(s.db, s.syncs[l].id), env)
    ensures var y := s.syncs[l];
            Synced(w, s, l, env) ==
            s.(index := s.index - Gone(w, y) + Records(w, l, y, RowsAt(s.db, y.id)), dirty := s.dirty - Reported(w, y), syncs := s.syncs - {l})
  {
    var y := s.syncs[l];
    SyncedWhenRead(w, s, l, env);
    AddOks(w, s, l, y, Records(w, l, y, RowsAt(s.db, y.id)), s.index - Gone(w, y), env);
  }

  lemma MergeEmpty<K, V>(m: map<K, V>, n: map<K, V>)
    ensures n == map[] ==> m + n == m
  {
  }

  lemma IndexAfterOk(w: World, index: SearchIndex, l: Label, y: Sync, rows: Rows, env: Env)
    requires SyncOk(w, l, y, rows, env)
    ensures IndexAfter(w, index, l, y, rows, env) == index - Gone(w, y) + Records(w, l, y, rows)
  {
    MergeEmpty(index - Gone(w, y), Records(w, l, y, rows));
  }

  /** All four steps at once: the reported keys leave the dirty set when every call succeeds, and join it
      when any call fails. */
  lemma SyncedIs(w: World, s: State, l: Label, env: Env)
    requires l in s.syncs && s.syncs[l].stage.Fresh?
    ensures var y := s.syncs[l];
            var rows := RowsAt(s.db, y.id);
            Synced(w, s, l, env) ==
            s.(index := IndexAfter(w, s.index, l, y, rows, env),
               dirty := if SyncOk(w, l, y, rows, env) then s.dirty - Reported(w, y) else s.dirty + Reported(w, y),
               syncs := s.syncs - {l})
  {
    var y := s.syncs[l];
    if !DeleteOk(w, y, env) {
      SyncedWhenDeleteFails(w, s, l, env);
    } else if !ReadOk(y, env) {
      SyncedWhenReadFails(w, s, l, env);
    } else if AddOk(w, l, y, RowsAt(s.db, y.id), env) {
      SyncedWhenOk(w, s, l, env);
      IndexAfterOk(w, s.index, l, y, RowsAt(s.db, y.id), env);
    } else {
      SyncedWhenAddFails(w, s, l, env);
    }
  }

  /** The rows right after the commit. */
  function RowsAfter(s: State, input: ReconcileInput, now: int): Rows {
    RowsAt(Committed(s.db, s.next, input, now), RepoIDFor(s.db, LabelOf(input.repo), s.next))
  }

  /** A committed run as a whole. */
  lemma PlayedIs(w: World, s: State, input: ReconcileInput, env: Env)
    requires Commits(s, input, false)
    ensures var l, y, rows := LabelOf(input.repo), SyncOf(s.db, s.next, input), RowsAfter(s, input, env.now);
            var t := Played(w, s, input, env);
            && t.db == Committed(s.db, s.next, input, env.now) && t.next == s.next + 1 && l !in t.syncs
            && t.index == IndexAfter(w, s.index, l, y, rows, env)
            && t.dirty == (if SyncOk(w, l, y, rows, env) then s.dirty - Reported(w, y) else s.dirty + Reported(w, y))
  {
    assert Apply(w, s, Ingest(input, env.now, false)) == Ingested(s, input, env.now);
    SyncedIs(w, Ingested(s, input, env.now), LabelOf(input.repo), env);
  }
}
