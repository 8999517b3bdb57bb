/** The content-hash gate of store/reconcile.go as a value: what one reconcile of a keyed table writes,
    skips and deletes, judged against the snapshot of hashes read before its loop. */
module Gate {

  datatype Entry<+V> = Entry(key: string, hash: string, row: V)

  /** A row with its content hash and the stamp of the last write. */
  datatype Stored<+V> = Stored(hash: string, row: V, at: int)

  type Table<+V> = map<string, Stored<V>>

  predicate Same<V>(cur: Table<V>, d: Entry<V>) {
    d.key in cur && cur[d.key].hash == d.hash
  }

  function KeySet<V>(desired: seq<Entry<V>>): set<string> {
    set i | 0 <= i < |desired| :: desired[i].key
  }

  /** The table after the upsert loop: entries are judged against `cur`, not against earlier upserts. */
  function Upserts<V>(cur: Table<V>, desired: seq<Entry<V>>, now: int): Table<V> {
    if desired == [] then cur
    else
      var d := desired[|desired| - 1];
      var before := Upserts(cur, desired[..|desired| - 1], now);
      if Same(cur, d) then before else before[d.key := Stored(d.hash, d.row, now)]
  }

  /** The row an entry leaves under its key when no other entry shares it. */
  function Kept<V>(cur: Table<V>, d: Entry<V>, now: int): Stored<V> {
    if Same(cur, d) then cur[d.key] else Stored(d.hash, d.row, now)
  }

  function UpsertedKeys<V>(cur: Table<V>, desired: seq<Entry<V>>): seq<string> {
    if desired == [] then []
    else
      var d := desired[|desired| - 1];
      UpsertedKeys(cur, desired[..|desired| - 1]) + if Same(cur, d) then [] else [d.key]
  }

  function Unchanged<V>(cur: Table<V>, desired: seq<Entry<V>>): nat {
    if desired == [] then 0
    else Unchanged(cur, desired[..|desired| - 1]) + if Same(cur, desired[|desired| - 1]) then 1 else 0
  }

  function Removed<V>(cur: Table<V>, desired: seq<Entry<V>>): set<string> {
    cur.Keys - KeySet(desired)
  }

  /** The table after the whole reconcile. */
  function Reconciled<V>(cur: Table<V>, desired: seq<Entry<V>>, now: int): Table<V> {
    Upserts(cur, desired, now) - Removed(cur, desired)
  }

  predicate DistinctKeys<V>(desired: seq<Entry<V>>) {
    forall i, j :: 0 <= i < j < |desired| ==> desired[i].key != desired[j].key
  }

  /** Entries that share a key share a hash. */
  predicate OneHashPerKey<V>(desired: seq<Entry<V>>) {
    forall i, j :: 0 <= i < |desired| && 0 <= j < |desired| && desired[i].key == desired[j].key
      ==> desired[i].hash == desired[j].hash
  }

  // ---------------------------------------------------------------- what the gate leaves in the table

  lemma KeySetSnoc<V>(init: seq<Entry<V>>, d: Entry<V>)
    ensures KeySet(init + [d]) == KeySet(init) + {d.key}
  {
    var all := init + [d];
    assert forall i :: 0 <= i < |init| ==> all[i] == init[i];
    assert all[|init|] == d;
    assert forall k :: k in KeySet(init) ==> k in KeySet(all);
  }

  lemma {:induction false} UpsertsKeys<V>(cur: Table<V>, desired: seq<Entry<V>>, now: int)
    ensures Upserts(cur, desired, now).Keys == cur.Keys + KeySet(desired)
    ensures forall k :: k in cur && k !in KeySet(desired) ==> Upserts(cur, desired, now)[k] == cur[k]
  {
    if desired != [] {
      var init, d := desired[..|desired| - 1], desired[|desired| - 1];
      assert desired == init + [d];
      KeySetSnoc(init, d);
      UpsertsKeys(cur, init, now);
    }
  }

  lemma ReconciledKeys<V>(cur: Table<V>, desired: seq<Entry<V>>, now: int)
    ensures Reconciled(cur, desired, now).Keys == KeySet(desired)
    ensures forall k :: k in KeySet(desired) ==> Reconciled(cur, desired, now)[k] == Upserts(cur, desired, now)[k]
  {
    UpsertsKeys(cur, desired, now);
  }

  lemma {:induction false} UpsertsAt<V>(cur: Table<V>, desired: seq<Entry<V>>, now: int, i: nat)
    requires i < |desired| && forall j :: i < j < |desired| ==> desired[j].key != desired[i].key
    requires forall j :: 0 <= j < i && desired[j].key == desired[i].key ==> Same(cur, desired[j]) == Same(cur, desired[i])
    ensures desired[i].key in Upserts(cur, desired, now)
    ensures Upserts(cur, desired, now)[desired[i].key] == Kept(cur, desired[i], now)
    decreases |desired|
  {
    var init, d := desired[..|desired| - 1], desired[|desired| - 1];
    assert forall j :: 0 <= j < |init| ==> init[j] == desired[j];
    if i < |init| {
      UpsertsAt(cur, init, now, i);
    } else if Same(cur, d) {
      UntouchedKey(cur, init, now, d.key);
    }
  }

  /** A key all of whose entries are unchanged keeps its row. */
  lemma {:induction false} UntouchedKey<V>(cur: Table<V>, desired: seq<Entry<V>>, now: int, k: string)
    requires k in cur
    requires forall j :: 0 <= j < |desired| && desired[j].key == k ==> Same(cur, desired[j])
    ensures k in Upserts(cur, desired, now) && Upserts(cur, desired, now)[k] == cur[k]
  {
    if desired != [] {
      var init := desired[..|desired| - 1];
      assert forall j :: 0 <= j < |init| ==> init[j] == desired[j];
      UntouchedKey(cur, init, now, k);
    }
  }

  lemma {:induction false} UpsertedKeysIff<V>(cur: Table<V>, desired: seq<Entry<V>>)
    ensures forall k :: k in UpsertedKeys(cur, desired) <==>
              exists i :: 0 <= i < |desired| && desired[i].key == k && !Same(cur, desired[i])
    ensures |UpsertedKeys(cur, desired)| + Unchanged(cur, desired) == |desired|
  {
    if desired != [] {
      var n := |desired| - 1;
      var init := desired[..n];
      UpsertedKeysIff(cur, init);
      assert forall j :: 0 <= j < n ==> init[j] == desired[j];
      forall k ensures k in UpsertedKeys(cur, desired) <==>
          exists i :: 0 <= i < |desired| && desired[i].key == k && !Same(cur, desired[i])
      {
        if k in UpsertedKeys(cur, init) {
          var i :| 0 <= i < n && init[i].key == k && !Same(cur, init[i]);
          assert desired[i].key == k;
        }
        if i :| 0 <= i < |desired| && desired[i].key == k && !Same(cur, desired[i]) {
          assert i < n ==> init[i].key == k;
        }
      }
    }
  }

  lemma {:induction false} UpsertedKeysDistinct<V>(cur: Table<V>, desired: seq<Entry<V>>)
    requires DistinctKeys(desired)
    ensures forall i, j :: 0 <= i < j < |UpsertedKeys(cur, desired)| ==> UpsertedKeys(cur, desired)[i] != UpsertedKeys(cur, desired)[j]
  {
    if desired != [] {
      var n := |desired| - 1;
      var init := desired[..n];
      assert forall j :: 0 <= j < n ==> init[j] == desired[j];
      UpsertedKeysDistinct(cur, init);
      UpsertedKeysIff(cur, init);
      var before := UpsertedKeys(cur, init);
      assert forall i :: 0 <= i < |before| ==> before[i] in before;
    }
  }

  /** With distinct keys the gate's table is "replace everything" up to the rows it skipped: exactly the
      desired keys, every desired hash, the desired row wherever the hash is new or changed, the old row
      elsewhere; and it reports exactly the new-or-changed keys, once each, and the removed ones. */
  lemma RefinesReplacement<V>(cur: Table<V>, desired: seq<Entry<V>>, now: int)
    requires DistinctKeys(desired)
    ensures var out := Reconciled(cur, desired, now);
            && out.Keys == KeySet(desired)
            && (forall i :: 0 <= i < |desired| && desired[i].key in cur && cur[desired[i].key].hash == desired[i].hash ==>
                  out[desired[i].key] == cur[desired[i].key])
            && (forall i :: 0 <= i < |desired| && !(desired[i].key in cur && cur[desired[i].key].hash == desired[i].hash) ==>
                  var s := out[desired[i].key]; s.hash == desired[i].hash && s.row == desired[i].row && s.at == now)
            && (forall k :: k in UpsertedKeys(cur, desired) <==> k in out && (k !in cur || cur[k].hash != out[k].hash))
            && (forall i, j :: 0 <= i < j < |UpsertedKeys(cur, desired)| ==>
                  UpsertedKeys(cur, desired)[i] != UpsertedKeys(cur, desired)[j])
            && Removed(cur, desired) == cur.Keys - out.Keys
            && |UpsertedKeys(cur, desired)| + Unchanged(cur, desired) == |desired|
  {
    ReconciledKeys(cur, desired, now);
    var out := Reconciled(cur, desired, now);
    forall i | 0 <= i < |desired|
      ensures out[desired[i].key] == Kept(cur, desired[i], now)
    {
      assert desired[i].key in KeySet(desired);
      UpsertsAt(cur, desired, now, i);
    }
    UpsertedKeysIff(cur, desired);
    UpsertedKeysDistinct(cur, desired);
  }

  /** The last entry for its key among those whose hash is not the current one. */
  predicate LastWrite<V>(cur: Table<V>, desired: seq<Entry<V>>, i: nat) {
    && i < |desired| && !(desired[i].key in cur && cur[desired[i].key].hash == desired[i].hash)
    && forall j :: i < j < |desired| && desired[j].key == desired[i].key ==> desired[j].key in cur && cur[desired[j].key].hash == desired[j].hash
  }

  /** For any list, repeated keys included: an entry is judged by the hash stored before the run, the last one that
      differs from it is what is left, and a key none of whose entries differs keeps its row and its stamp. */
  lemma {:induction false} LastWriteWins<V>(cur: Table<V>, desired: seq<Entry<V>>, now: int, i: nat)
    requires LastWrite(cur, desired, i)
    ensures desired[i].key in Reconciled(cur, desired, now)
    ensures var s := Reconciled(cur, desired, now)[desired[i].key]; s.hash == desired[i].hash && s.row == desired[i].row && s.at == now
    decreases |desired|
  {
    var init, k := desired[..|desired| - 1], desired[i].key;
    ReconciledKeys(cur, desired, now);
    assert k in KeySet(desired);
    if i < |init| {
      assert forall j :: 0 <= j < |init| ==> init[j] == desired[j];
      assert LastWrite(cur, init, i);
      LastWriteWins(cur, init, now, i);
      ReconciledKeys(cur, init, now);
      assert init[i].key in KeySet(init);
    }
  }

  lemma NoWriteKeeps<V>(cur: Table<V>, desired: seq<Entry<V>>, now: int, k: string)
    requires k in cur && k in KeySet(desired)
    requires forall i :: 0 <= i < |desired| && desired[i].key == k ==> cur[k].hash == desired[i].hash
    ensures k in Reconciled(cur, desired, now) && Reconciled(cur, desired, now)[k] == cur[k]
  {
    ReconciledKeys(cur, desired, now);
    UntouchedKey(cur, desired, now, k);
  }

  // ---------------------------------------------------------------- idempotence, exactly

  lemma {:induction false} UpsertsHash<V>(cur: Table<V>, desired: seq<Entry<V>>, now: int, i: nat)
    requires OneHashPerKey(desired) && i < |desired|
    ensures desired[i].key in Upserts(cur, desired, now)
    ensures Upserts(cur, desired, now)[desired[i].key].hash == desired[i].hash
    decreases |desired|
  {
    var init, d := desired[..|desired| - 1], desired[|desired| - 1];
    assert forall j :: 0 <= j < |init| ==> init[j] == desired[j];
    if Same(cur, d) && d.key == desired[i].key {
      UntouchedKey(cur, init, now, d.key);
    } else if i < |init| {
      UpsertsHash(cur, init, now, i);
    }
  }

  lemma {:induction false} AllSame<V>(cur: Table<V>, desired: seq<Entry<V>>)
    ensures UpsertedKeys(cur, desired) == [] <==> forall i :: 0 <= i < |desired| ==> Same(cur, desired[i])
  {
    if desired != [] {
      var init := desired[..|desired| - 1];
      assert forall j :: 0 <= j < |init| ==> init[j] == desired[j];
      AllSame(cur, init);
    }
  }

  /** A second identical run writes and deletes nothing exactly when no key is desired under two hashes. */
  lemma IdempotentIff<V>(cur: Table<V>, desired: seq<Entry<V>>, now: int)
    ensures var once := Reconciled(cur, desired, now);
            UpsertedKeys(once, desired) == [] && Removed(once, desired) == {} <==> OneHashPerKey(desired)
  {
    var once := Reconciled(cur, desired, now);
    ReconciledKeys(cur, desired, now);
    UpsertedKeysIff(once, desired);
    assert forall i :: 0 <= i < |desired| ==> desired[i].key in KeySet(desired);
    if OneHashPerKey(desired) {
      forall i | 0 <= i < |desired| ensures Same(once, desired[i]) {
        UpsertsHash(cur, desired, now, i);
      }
      AllSame(once, desired);
    } else {
      var i, j :| 0 <= i < |desired| && 0 <= j < |desired| && desired[i].key == desired[j].key && desired[i].hash != desired[j].hash;
      assert !Same(once, desired[i]) || !Same(once, desired[j]);
      assert desired[i].key in UpsertedKeys(once, desired);
    }
  }

  /** Then it leaves the table exactly as it was, stamps included. */
  lemma NothingToDo<V>(cur: Table<V>, desired: seq<Entry<V>>, now: int)
    requires UpsertedKeys(cur, desired) == [] && Removed(cur, desired) == {}
    ensures Reconciled(cur, desired, now) == cur
  {
    ReconciledKeys(cur, desired, now);
    AllSame(cur, desired);
    var out := Reconciled(cur, desired, now);
    assert cur.Keys <= KeySet(desired) + Removed(cur, desired);
    forall k | k in out ensures k in cur && out[k] == cur[k] {
      var i :| 0 <= i < |desired| && desired[i].key == k;
      UntouchedKey(cur, desired, now, k);
    }
  }

  /** n runs of one desired list from an empty table; run i is stamped i. */
  function Runs<V>(desired: seq<Entry<V>>, n: nat): Table<V> {
    if n == 0 then map[] else Reconciled(Runs(desired, n - 1), desired, n)
  }

  /** One key desired twice, under hashes h1 then h2, never settles: the row flips on every run. */
  lemma {:induction false} DuplicateKeyFlips<V>(k: string, h1: string, r1: V, h2: string, r2: V, n: nat)
    requires h1 != h2 && n >= 1
    ensures var t := Runs([Entry(k, h1, r1), Entry(k, h2, r2)], n);
            t == map[k := if n % 2 == 1 then Stored(h2, r2, n) else Stored(h1, r1, n)]
    ensures n >= 2 ==>
              |UpsertedKeys(Runs([Entry(k, h1, r1), Entry(k, h2, r2)], n - 1), [Entry(k, h1, r1), Entry(k, h2, r2)])| == 1
  {
    var a, b := Entry(k, h1, r1), Entry(k, h2, r2);
    var desired := [a, b];
    var cur := Runs(desired, n - 1);
    if n >= 2 {
      DuplicateKeyFlips(k, h1, r1, h2, r2, n - 1);
    }
    assert desired[..1] == [a] && [a][..0] == [];
    assert Upserts(cur, [a], n) == if Same(cur, a) then cur else cur[k := Stored(h1, r1, n)];
    assert UpsertedKeys(cur, [a]) == if Same(cur, a) then [] else [k];
    ReconciledKeys(cur, desired, n);
    assert KeySet(desired) == {k} by {
      assert desired[0].key == k;
    }
    assert k in KeySet(desired);
  }
}
