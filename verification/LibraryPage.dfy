/** Windowed merging and paging of database entries and orphan files. */
module LibraryPage {
  import opened Options

  /** `id` is zero for orphan files; `path` is absent for a record that names no file. */
  datatype Entry = Entry(id: nat, path: Option<string>, created: int)

  /** Entries of the same file share a key; a record without a file is its own entry. */
  datatype EntryKey = FileKey(path: string) | RecordKey(id: nat)

  function Key(e: Entry): EntryKey {
    if e.path.Some? then FileKey(e.path.value) else RecordKey(e.id)
  }

  function Keys(es: seq<Entry>): (ks: seq<EntryKey>)
    ensures |ks| == |es|
    ensures forall i :: 0 <= i < |es| ==> ks[i] == Key(es[i])
  {
    if es == [] then [] else Keys(es[..|es| - 1]) + [Key(es[|es| - 1])]
  }

  ghost predicate Distinct(ks: seq<EntryKey>) {
    forall i, j :: 0 <= i < j < |ks| ==> ks[i] != ks[j]
  }

  /** No two entries share a key: what the queries and the directory walk deliver. */
  ghost predicate OwnKeys(es: seq<Entry>) {
    forall i, j {:trigger Key(es[i]), Key(es[j])} :: 0 <= i < j < |es| ==> Key(es[i]) != Key(es[j])
  }

  ghost predicate Newest(es: seq<Entry>) {
    forall i, j :: 0 <= i < j < |es| ==> es[i].created >= es[j].created
  }

  function IndexOf(ks: seq<EntryKey>, k: EntryKey): (i: int)
    ensures -1 <= i < |ks|
    ensures i >= 0 ==> ks[i] == k
    ensures i < 0 <==> k !in ks
    decreases |ks|
  {
    if ks == [] then -1
    else if ks[|ks| - 1] == k then |ks| - 1
    else IndexOf(ks[..|ks| - 1], k)
  }

  /** Append under a new key; a database record replaces an orphan under a known key. */
  function Add(merged: seq<Entry>, e: Entry): (r: seq<Entry>)
    ensures Keys(r) == AddKey(Keys(merged), Key(e))
  {
    var at := IndexOf(Keys(merged), Key(e));
    if at < 0 then merged + [e]
    else if e.id != 0 && merged[at].id == 0 then merged[at := e]
    else merged
  }

  /** The same on keys alone. */
  function AddKey(ks: seq<EntryKey>, k: EntryKey): seq<EntryKey> {
    if k in ks then ks else ks + [k]
  }

  /** Which source the next entry comes from; ties go to the database. */
  predicate TakeDb(db: seq<Entry>, orphans: seq<Entry>, i: nat, j: nat) {
    i < |db| && (j >= |orphans| || db[i].created >= orphans[j].created)
  }

  /** The rest of the merge once `i` database entries and `j` orphans are consumed. */
  function Merge(db: seq<Entry>, orphans: seq<Entry>, need: nat, i: nat, j: nat, merged: seq<Entry>): seq<Entry>
    requires i <= |db| && j <= |orphans|
    decreases |db| - i + |orphans| - j
  {
    if |merged| >= need || (i == |db| && j == |orphans|) then merged
    else if TakeDb(db, orphans, i, j) then Merge(db, orphans, need, i + 1, j, Add(merged, db[i]))
    else Merge(db, orphans, need, i, j + 1, Add(merged, orphans[j]))
  }

  /** The keys a merge lists, independently of which record stands under a key. */
  function MergeKeys(db: seq<Entry>, orphans: seq<Entry>, need: nat, i: nat, j: nat, ks: seq<EntryKey>): seq<EntryKey>
    requires i <= |db| && j <= |orphans|
    decreases |db| - i + |orphans| - j
  {
    if |ks| >= need || (i == |db| && j == |orphans|) then ks
    else if TakeDb(db, orphans, i, j) then MergeKeys(db, orphans, need, i + 1, j, AddKey(ks, Key(db[i])))
    else MergeKeys(db, orphans, need, i, j + 1, AddKey(ks, Key(orphans[j])))
  }

  lemma {:induction false} MergeHasKeys(db: seq<Entry>, orphans: seq<Entry>, need: nat, i: nat, j: nat, merged: seq<Entry>)
    requires i <= |db| && j <= |orphans|
    ensures Keys(Merge(db, orphans, need, i, j, merged)) == MergeKeys(db, orphans, need, i, j, Keys(merged))
    decreases |db| - i + |orphans| - j
  {
    hide Keys, Key, Add, AddKey, TakeDb;
    if |merged| >= need || (i == |db| && j == |orphans|) {
      return;
    }
    TakeDbNeedsDb(db, orphans, i, j);
    if TakeDb(db, orphans, i, j) {
      MergeHasKeys(db, orphans, need, i + 1, j, Add(merged, db[i]));
    } else {
      MergeHasKeys(db, orphans, need, i, j + 1, Add(merged, orphans[j]));
    }
  }

  /** The keys of the unbounded merge. */
  function FullKeys(db: seq<Entry>, orphans: seq<Entry>): seq<EntryKey> {
    MergeKeys(db, orphans, |db| + |orphans|, 0, 0, [])
  }

  ghost predicate Indexed(positions: map<EntryKey, nat>, merged: seq<Entry>) {
    && (forall k :: k in positions ==> positions[k] < |merged| && Key(merged[positions[k]]) == k)
    && (forall n :: 0 <= n < |merged| ==> Key(merged[n]) in positions && positions[Key(merged[n])] == n)
  }

  lemma IndexedAt(positions: map<EntryKey, nat>, merged: seq<Entry>, key: EntryKey)
    requires Indexed(positions, merged)
    ensures IndexOf(Keys(merged), key) == if key in positions then positions[key] else -1
  {
    hide IndexOf, Key;
    var at := IndexOf(Keys(merged), key);
    if at >= 0 { assert Key(merged[at]) == key; }
    if key in positions { assert Keys(merged)[positions[key]] == key; }
  }

  lemma {:induction false} ReplaceIndexed(positions: map<EntryKey, nat>, merged: seq<Entry>, item: Entry)
    requires Indexed(positions, merged) && Key(item) in positions
    ensures positions[Key(item)] < |merged| && Indexed(positions, merged[positions[Key(item)] := item])
  {
    hide Key;
  }

  lemma {:induction false} AppendIndexed(positions: map<EntryKey, nat>, merged: seq<Entry>, item: Entry)
    requires Indexed(positions, merged) && Key(item) !in positions
    ensures Indexed(positions[Key(item) := |merged|], merged + [item])
  {
    hide Key;
  }

  /** The `add` closure of mergeLibraryEntries. */
  method AddEntry(merged: seq<Entry>, positions: map<EntryKey, nat>, item: Entry)
    returns (merged': seq<Entry>, positions': map<EntryKey, nat>)
    requires Indexed(positions, merged)
    ensures merged' == Add(merged, item) && Indexed(positions', merged')
  {
    hide Indexed, IndexOf, Key, Keys;
    var key := Key(item);
    IndexedAt(positions, merged, key);
    if key in positions {
      ReplaceIndexed(positions, merged, item);
      positions' := positions;
      merged' := if item.id != 0 && merged[positions[key]].id == 0 then merged[positions[key] := item] else merged;
    } else {
      AppendIndexed(positions, merged, item);
      positions' := positions[key := |merged|];
      merged' := merged + [item];
    }
  }

  method MergeLibraryEntries(db: seq<Entry>, orphans: seq<Entry>, need: nat) returns (merged: seq<Entry>)
    ensures merged == Merge(db, orphans, need, 0, 0, [])
  {
    merged := [];
    var positions: map<EntryKey, nat> := map[];
    assert Indexed(positions, merged);
    hide Indexed, Add;
    var i, j := 0, 0;
    while |merged| < need && (i < |db| || j < |orphans|)
      invariant i <= |db| && j <= |orphans| && Indexed(positions, merged)
      invariant Merge(db, orphans, need, 0, 0, []) == Merge(db, orphans, need, i, j, merged)
      decreases |db| - i + |orphans| - j
    {
      if TakeDb(db, orphans, i, j) {
        merged, positions := AddEntry(merged, positions, db[i]);
        i := i + 1;
      } else {
        merged, positions := AddEntry(merged, positions, orphans[j]);
        j := j + 1;
      }
    }
  }

  // ---------- a bounded merge is a prefix of the full one ----------

  lemma {:induction false} MergeExtends(db: seq<Entry>, orphans: seq<Entry>, need: nat, i: nat, j: nat, ks: seq<EntryKey>)
    requires i <= |db| && j <= |orphans|
    ensures ks <= MergeKeys(db, orphans, need, i, j, ks)
    decreases |db| - i + |orphans| - j
  {
    if |ks| >= need || (i == |db| && j == |orphans|) {
    } else if TakeDb(db, orphans, i, j) {
      MergeExtends(db, orphans, need, i + 1, j, AddKey(ks, Key(db[i])));
    } else {
      MergeExtends(db, orphans, need, i, j + 1, AddKey(ks, Key(orphans[j])));
    }
  }

  function Upto(ks: seq<EntryKey>, n: nat): seq<EntryKey> { if n < |ks| then ks[..n] else ks }

  /** A merge bounded by `need` lists the first `need` keys of any merge with a larger bound. */
  lemma {:induction false} MergeIsPrefix(db: seq<Entry>, orphans: seq<Entry>, need: nat, more: nat, i: nat, j: nat, ks: seq<EntryKey>)
    requires i <= |db| && j <= |orphans| && |ks| <= need <= more
    ensures MergeKeys(db, orphans, need, i, j, ks) == Upto(MergeKeys(db, orphans, more, i, j, ks), need)
    decreases |db| - i + |orphans| - j
  {
    hide Key, TakeDb;
    if i == |db| && j == |orphans| {
      return;
    }
    TakeDbNeedsDb(db, orphans, i, j);
    if |ks| == need {
      MergeExtends(db, orphans, more, i, j, ks);
    } else if TakeDb(db, orphans, i, j) {
      MergeIsPrefix(db, orphans, need, more, i + 1, j, AddKey(ks, Key(db[i])));
    } else {
      MergeIsPrefix(db, orphans, need, more, i, j + 1, AddKey(ks, Key(orphans[j])));
    }
  }

  lemma {:induction false} MergeSize(db: seq<Entry>, orphans: seq<Entry>, need: nat, i: nat, j: nat, ks: seq<EntryKey>)
    requires i <= |db| && j <= |orphans| && |ks| <= i + j
    ensures |MergeKeys(db, orphans, need, i, j, ks)| <= |db| + |orphans|
    decreases |db| - i + |orphans| - j
  {
    if |ks| >= need || (i == |db| && j == |orphans|) {
    } else if TakeDb(db, orphans, i, j) {
      MergeSize(db, orphans, need, i + 1, j, AddKey(ks, Key(db[i])));
    } else {
      MergeSize(db, orphans, need, i, j + 1, AddKey(ks, Key(orphans[j])));
    }
  }

  /** Whatever the bound, a merge of the two sources lists the first `need` keys of the full merge. */
  lemma BoundedMerge(db: seq<Entry>, orphans: seq<Entry>, need: nat)
    ensures MergeKeys(db, orphans, need, 0, 0, []) == Upto(FullKeys(db, orphans), need)
  {
    var all := |db| + |orphans|;
    if need <= all {
      MergeIsPrefix(db, orphans, need, all, 0, 0, []);
    } else {
      MergeIsPrefix(db, orphans, all, need, 0, 0, []);
      MergeSize(db, orphans, need, 0, 0, []);
    }
  }

  // ---------- a window of the database is enough ----------

  lemma {:induction false} SetSmallerThanSeq(ks: seq<EntryKey>, s: set<EntryKey>)
    requires forall k :: k in s ==> k in ks
    ensures |s| <= |ks|
  {
    if ks == [] {
      assert s == {};
    } else {
      var last := ks[|ks| - 1];
      SetSmallerThanSeq(ks[..|ks| - 1], s - {last});
    }
  }

  ghost predicate Consumed(db: seq<Entry>, i: nat, ks: seq<EntryKey>, done: set<EntryKey>) {
    && |done| == i && (forall k :: k in done ==> k in ks)
    && (forall n {:trigger Key(db[n])} :: i <= n < |db| ==> Key(db[n]) !in done)
  }

  lemma {:induction false} ConsumeOne(db: seq<Entry>, i: nat, ks: seq<EntryKey>, done: set<EntryKey>)
    requires OwnKeys(db) && i < |db| && Consumed(db, i, ks, done)
    ensures Consumed(db, i + 1, AddKey(ks, Key(db[i])), done + {Key(db[i])})
  {
    hide Key;
    var k := Key(db[i]);
    assert k !in done;
  }

  /** `done` holds the keys of the `i` database entries already consumed: each of them is listed,
      so the window of `w` entries cannot run out before `need` entries are collected. */
  lemma {:induction false} WindowSame(db: seq<Entry>, w: nat, orphans: seq<Entry>, need: nat, i: nat, j: nat,
      merged: seq<Entry>, done: set<EntryKey>)
    requires OwnKeys(db) && w <= |db| && need <= w
    requires i <= w && j <= |orphans| && Consumed(db, i, Keys(merged), done)
    ensures Merge(db[..w], orphans, need, i, j, merged) == Merge(db, orphans, need, i, j, merged)
    decreases |db| - i + |orphans| - j
  {
    hide Add, AddKey, Key, OwnKeys, Keys, Consumed, TakeDb, Merge;
    if |merged| >= need {
      MergeStops(db, orphans, need, i, j, merged);
      MergeStops(db[..w], orphans, need, i, j, merged);
      return;
    }
    WindowLeft(db, w, i, merged, done);
    WindowTakes(db, w, orphans, i, j);
    MergeGoesOn(db, orphans, need, i, j, merged);
    MergeGoesOn(db[..w], orphans, need, i, j, merged);
    if TakeDb(db, orphans, i, j) {
      ConsumeOne(db, i, Keys(merged), done);
      WindowSame(db, w, orphans, need, i + 1, j, Add(merged, db[i]), done + {Key(db[i])});
    } else {
      ConsumedStays(db, i, Keys(merged), done, Key(orphans[j]));
      WindowSame(db, w, orphans, need, i, j + 1, Add(merged, orphans[j]), done);
    }
  }

  lemma WindowLeft(db: seq<Entry>, w: nat, i: nat, merged: seq<Entry>, done: set<EntryKey>)
    requires i <= w && |merged| < w && Consumed(db, i, Keys(merged), done)
    ensures i < w
  {
    hide Key;
    SetSmallerThanSeq(Keys(merged), done);
  }

  lemma MergeStops(db: seq<Entry>, orphans: seq<Entry>, need: nat, i: nat, j: nat, merged: seq<Entry>)
    requires i <= |db| && j <= |orphans| && |merged| >= need
    ensures Merge(db, orphans, need, i, j, merged) == merged
  {
  }

  lemma {:induction false} MergeGoesOn(db: seq<Entry>, orphans: seq<Entry>, need: nat, i: nat, j: nat, merged: seq<Entry>)
    requires i < |db| && j <= |orphans| && |merged| < need
    ensures TakeDb(db, orphans, i, j) ==>
      Merge(db, orphans, need, i, j, merged) == Merge(db, orphans, need, i + 1, j, Add(merged, db[i]))
    ensures !TakeDb(db, orphans, i, j) ==>
      j < |orphans| && Merge(db, orphans, need, i, j, merged) == Merge(db, orphans, need, i, j + 1, Add(merged, orphans[j]))
  {
    hide Add;
  }

  lemma WindowTakes(db: seq<Entry>, w: nat, orphans: seq<Entry>, i: nat, j: nat)
    requires i < w <= |db| && j <= |orphans|
    ensures TakeDb(db[..w], orphans, i, j) == TakeDb(db, orphans, i, j) && db[..w][i] == db[i]
    ensures !TakeDb(db, orphans, i, j) ==> j < |orphans|
  {
  }

  lemma ConsumedStays(db: seq<Entry>, i: nat, ks: seq<EntryKey>, done: set<EntryKey>, k: EntryKey)
    requires Consumed(db, i, ks, done)
    ensures Consumed(db, i, AddKey(ks, k), done)
  {
  }

  lemma {:induction false} WindowMerges(db: seq<Entry>, w: nat, orphans: seq<Entry>, need: nat)
    requires OwnKeys(db) && w <= |db| && (need <= w || w == |db|)
    ensures Merge(db[..w], orphans, need, 0, 0, []) == Merge(db, orphans, need, 0, 0, [])
  {
    if w == |db| {
      assert db[..w] == db;
    } else {
      WindowSame(db, w, orphans, need, 0, 0, [], {});
    }
  }

  /** Windowed paging agrees with the full merge: merging only the first `w` database entries
      lists the first `need` keys of the unbounded merge, even when the sources overlap. */
  lemma {:induction false} WindowedMerge(db: seq<Entry>, w: nat, orphans: seq<Entry>, need: nat)
    requires OwnKeys(db) && w <= |db| && (need <= w || w == |db|)
    ensures Keys(Merge(db[..w], orphans, need, 0, 0, [])) == Upto(FullKeys(db, orphans), need)
  {
    hide Merge, MergeKeys, FullKeys, OwnKeys, Keys;
    WindowMerges(db, w, orphans, need);
    MergeHasKeys(db, orphans, need, 0, 0, []);
    BoundedMerge(db, orphans, need);
  }

  // ---------- the full merge lists every key once ----------

  lemma KeysRest(es: seq<Entry>, i: nat, k: EntryKey)
    requires i < |es|
    ensures k in Keys(es[i..]) <==> k == Key(es[i]) || k in Keys(es[i + 1..])
  {
    assert es[i..] == [es[i]] + es[i + 1..];
    forall n | 0 <= n < |es| - i ensures Keys(es[i..])[n] == if n == 0 then Key(es[i]) else Keys(es[i + 1..])[n - 1] {
    }
  }

  lemma AddKeyDistinct(ks: seq<EntryKey>, k: EntryKey)
    requires Distinct(ks)
    ensures Distinct(AddKey(ks, k))
  {
  }

  lemma {:induction false} MergeDistinct(db: seq<Entry>, orphans: seq<Entry>, need: nat, i: nat, j: nat, ks: seq<EntryKey>)
    requires i <= |db| && j <= |orphans| && Distinct(ks)
    ensures Distinct(MergeKeys(db, orphans, need, i, j, ks))
    decreases |db| - i + |orphans| - j
  {
    hide Distinct, AddKey, Key, TakeDb;
    if |ks| >= need || (i == |db| && j == |orphans|) {
    } else if TakeDb(db, orphans, i, j) {
      TakeDbNeedsDb(db, orphans, i, j);
      AddKeyDistinct(ks, Key(db[i]));
      MergeDistinct(db, orphans, need, i + 1, j, AddKey(ks, Key(db[i])));
    } else {
      TakeDbNeedsDb(db, orphans, i, j);
      AddKeyDistinct(ks, Key(orphans[j]));
      MergeDistinct(db, orphans, need, i, j + 1, AddKey(ks, Key(orphans[j])));
    }
  }

  lemma {:induction false} MergeMember(db: seq<Entry>, orphans: seq<Entry>, i: nat, j: nat, ks: seq<EntryKey>, k: EntryKey)
    requires i <= |db| && j <= |orphans| && |ks| <= i + j
    ensures k in MergeKeys(db, orphans, |db| + |orphans|, i, j, ks)
      <==> k in ks || k in Keys(db[i..]) || k in Keys(orphans[j..])
    decreases |db| - i + |orphans| - j
  {
    hide Key, Keys, TakeDb;
    if i == |db| && j == |orphans| {
      NoKeys(db, k);
      NoKeys(orphans, k);
    } else if TakeDb(db, orphans, i, j) {
      TakeDbNeedsDb(db, orphans, i, j);
      KeysRest(db, i, k);
      MergeMember(db, orphans, i + 1, j, AddKey(ks, Key(db[i])), k);
    } else {
      TakeDbNeedsDb(db, orphans, i, j);
      KeysRest(orphans, j, k);
      MergeMember(db, orphans, i, j + 1, AddKey(ks, Key(orphans[j])), k);
    }
  }

  lemma NoKeys(es: seq<Entry>, k: EntryKey)
    ensures k !in Keys(es[|es|..])
  {
  }

  lemma TakeDbNeedsDb(db: seq<Entry>, orphans: seq<Entry>, i: nat, j: nat)
    requires i <= |db| && j <= |orphans| && i + j < |db| + |orphans|
    ensures if TakeDb(db, orphans, i, j) then i < |db| else j < |orphans|
  {
  }

  ghost predicate After(older: seq<Entry>, from: nat, newer: seq<Entry>) {
    forall n, m :: 0 <= n < |newer| && from <= m < |older| ==> newer[n].created >= older[m].created
  }

  ghost predicate NewKeys(es: seq<Entry>, from: nat, ks: seq<EntryKey>) {
    forall m {:trigger Key(es[m])} :: from <= m < |es| ==> Key(es[m]) !in ks
  }

  /** What the merge of disjoint sources keeps while it runs. */
  ghost predicate Merging(db: seq<Entry>, orphans: seq<Entry>, i: nat, j: nat, merged: seq<Entry>) {
    && i <= |db| && j <= |orphans| && |merged| == i + j
    && Newest(merged) && After(db, i, merged) && After(orphans, j, merged)
    && NewKeys(db, i, Keys(merged)) && NewKeys(orphans, j, Keys(merged))
  }

  ghost predicate Disjoint(a: seq<Entry>, b: seq<Entry>) {
    Newest(a) && Newest(b) && OwnKeys(a) && OwnKeys(b) && NewKeys(a, 0, Keys(b))
  }

  lemma TakeOne(a: seq<Entry>, b: seq<Entry>, i: nat, j: nat, merged: seq<Entry>)
    requires i < |a| && Disjoint(a, b) && Merging(a, b, i, j, merged)
    requires j == |b| || a[i].created >= b[j].created
    ensures Add(merged, a[i]) == merged + [a[i]]
    ensures Merging(a, b, i + 1, j, merged + [a[i]]) && Merging(b, a, j, i + 1, merged + [a[i]])
  {
    hide OwnKeys, Keys, Key, Newest, After;
    assert Key(a[i]) !in Keys(merged);
    KeysStayNew(a, i, b, j, merged);
    StaysNewest(a, b, i, j, merged);
    hide NewKeys;
  }

  lemma StaysNewest(a: seq<Entry>, b: seq<Entry>, i: nat, j: nat, merged: seq<Entry>)
    requires i < |a| && j <= |b| && Newest(a) && Newest(b) && Newest(merged) && After(a, i, merged) && After(b, j, merged)
    requires j == |b| || a[i].created >= b[j].created
    ensures var more := merged + [a[i]]; Newest(more) && After(a, i + 1, more) && After(b, j, more)
  {
  }

  /** The outcome: sorted, complete, and holding exactly what was still to come. */
  ghost predicate Merged(db: seq<Entry>, orphans: seq<Entry>, i: nat, j: nat, merged: seq<Entry>, full: seq<Entry>)
    requires i <= |db| && j <= |orphans|
  {
    && |full| == |db| + |orphans| && Newest(full)
    && multiset(full) == multiset(merged) + multiset(db[i..]) + multiset(orphans[j..])
  }

  lemma TakenDb(db: seq<Entry>, orphans: seq<Entry>, i: nat, j: nat, merged: seq<Entry>, full: seq<Entry>)
    requires i < |db| && j <= |orphans| && Merged(db, orphans, i + 1, j, merged + [db[i]], full)
    ensures Merged(db, orphans, i, j, merged, full)
  {
    hide Newest;
    MultisetRest(db, i);
  }

  lemma TakenOrphan(db: seq<Entry>, orphans: seq<Entry>, i: nat, j: nat, merged: seq<Entry>, full: seq<Entry>)
    requires i <= |db| && j < |orphans| && Merged(db, orphans, i, j + 1, merged + [orphans[j]], full)
    ensures Merged(db, orphans, i, j, merged, full)
  {
    hide Newest;
    MultisetRest(orphans, j);
  }

  lemma {:induction false} MergeRest(db: seq<Entry>, orphans: seq<Entry>, i: nat, j: nat, merged: seq<Entry>)
    requires Disjoint(db, orphans) && Disjoint(orphans, db) && Merging(db, orphans, i, j, merged)
    ensures Merged(db, orphans, i, j, merged, Merge(db, orphans, |db| + |orphans|, i, j, merged))
    decreases |db| - i + |orphans| - j
  {
    hide OwnKeys, NewKeys, Newest, After, Keys, Key, Add;
    if i == |db| && j == |orphans| {
      assert db[i..] == [] && orphans[j..] == [];
    } else if TakeDb(db, orphans, i, j) {
      TakeOne(db, orphans, i, j, merged);
      hide Merging, Disjoint, Add, Merged;
      MergeRest(db, orphans, i + 1, j, merged + [db[i]]);
      TakenDb(db, orphans, i, j, merged, Merge(db, orphans, |db| + |orphans|, i + 1, j, merged + [db[i]]));
    } else {
      assert Merging(orphans, db, j, i, merged);
      TakeOne(orphans, db, j, i, merged);
      hide Merging, Disjoint, Add, Merged;
      MergeRest(db, orphans, i, j + 1, merged + [orphans[j]]);
      TakenOrphan(db, orphans, i, j, merged, Merge(db, orphans, |db| + |orphans|, i, j + 1, merged + [orphans[j]]));
    }
  }

  /** Disjoint sources: nothing is dropped or replaced, and the order is newest first. */
  lemma {:induction false} DisjointMerge(db: seq<Entry>, orphans: seq<Entry>)
    requires Newest(db) && Newest(orphans) && OwnKeys(db) && OwnKeys(orphans)
    requires forall m, n :: 0 <= m < |db| && 0 <= n < |orphans| ==> Key(db[m]) != Key(orphans[n])
    ensures var full := Merge(db, orphans, |db| + |orphans|, 0, 0, []);
      |full| == |db| + |orphans| && Newest(full) && multiset(full) == multiset(db) + multiset(orphans)
  {
    forall m | 0 <= m < |db| ensures Key(db[m]) !in Keys(orphans) { }
    Sym(db, orphans);
    MergeRest(db, orphans, 0, 0, []);
    assert db[0..] == db && orphans[0..] == orphans;
  }

  lemma MultisetRest(es: seq<Entry>, i: nat)
    requires i < |es|
    ensures multiset(es[i..]) == multiset{es[i]} + multiset(es[i + 1..])
  {
    assert es[i..] == [es[i]] + es[i + 1..];
  }

  lemma {:induction false} Sym(a: seq<Entry>, b: seq<Entry>)
    requires NewKeys(a, 0, Keys(b))
    ensures NewKeys(b, 0, Keys(a))
  {
    forall m | 0 <= m < |b| ensures Key(b[m]) !in Keys(a) { assert Keys(b)[m] == Key(b[m]); }
  }

  lemma {:induction false} KeysStayNew(a: seq<Entry>, i: nat, b: seq<Entry>, j: nat, merged: seq<Entry>)
    requires i < |a| && j <= |b| && OwnKeys(a) && NewKeys(a, 0, Keys(b))
    requires NewKeys(a, i, Keys(merged)) && NewKeys(b, j, Keys(merged))
    ensures NewKeys(a, i + 1, Keys(merged + [a[i]])) && NewKeys(b, j, Keys(merged + [a[i]]))
  {
    assert Keys(merged + [a[i]]) == Keys(merged) + [Key(a[i])];
    forall m | j <= m < |b| ensures Key(b[m]) != Key(a[i]) { assert Keys(b)[m] == Key(b[m]); }
  }

  // ---------- which entry stands under a key ----------

  /** One of the first `i` records, or an orphan whose file none of these names. */
  ghost predicate Best(db: seq<Entry>, i: nat, orphans: seq<Entry>, e: Entry)
    requires i <= |db|
  {
    if e.id != 0 then e in db[..i] else e in orphans && Key(e) !in Keys(db[..i])
  }

  /** The entries so far: distinct, each the best for its key, and every consumed record's key among them. */
  ghost predicate AllBest(db: seq<Entry>, i: nat, orphans: seq<Entry>, merged: seq<Entry>)
    requires i <= |db|
  {
    && Distinct(Keys(merged))
    && (forall n {:trigger merged[n]} :: 0 <= n < |merged| ==> Best(db, i, orphans, merged[n]))
    && (forall m {:trigger db[m]} :: 0 <= m < i ==> Key(db[m]) in Keys(merged))
  }

  ghost predicate Told(db: seq<Entry>, orphans: seq<Entry>) {
    (forall m {:trigger db[m]} :: 0 <= m < |db| ==> db[m].id != 0) && (forall m {:trigger orphans[m]} :: 0 <= m < |orphans| ==> orphans[m].id == 0)
  }

  lemma {:induction false} KeysMore(db: seq<Entry>, i: nat)
    requires i < |db|
    ensures db[..i + 1] == db[..i] + [db[i]] && Keys(db[..i + 1]) == Keys(db[..i]) + [Key(db[i])]
  {
    assert db[..i + 1][..i] == db[..i];
  }

  lemma {:induction false} BestMore(db: seq<Entry>, i: nat, orphans: seq<Entry>, e: Entry)
    requires i < |db| && Best(db, i, orphans, e) && (e.id == 0 ==> Key(e) != Key(db[i]))
    ensures Best(db, i + 1, orphans, e)
  {
    KeysMore(db, i);
    hide Key, Keys;
  }

  /** A record whose key is listed already stands for an orphan there. */
  lemma {:induction false} OrphanThere(db: seq<Entry>, i: nat, orphans: seq<Entry>, e: Entry)
    requires OwnKeys(db) && i < |db| && Best(db, i, orphans, e) && Key(e) == Key(db[i])
    ensures e.id == 0
  {
  }

  lemma {:induction false} AddRecordBest(db: seq<Entry>, i: nat, orphans: seq<Entry>, merged: seq<Entry>)
    requires OwnKeys(db) && i < |db| && db[i].id != 0 && AllBest(db, i, orphans, merged)
    ensures AllBest(db, i + 1, orphans, Add(merged, db[i])) && |Add(merged, db[i])| <= |merged| + 1
  {
    var e, r := db[i], Add(merged, db[i]);
    var at := IndexOf(Keys(merged), Key(e));
    AddKeyDistinct(Keys(merged), Key(e));
    if at >= 0 { OrphanThere(db, i, orphans, merged[at]); }
    forall n | 0 <= n < |r| ensures Best(db, i + 1, orphans, r[n]) {
      if n == at || n == |merged| {
        assert r[n] == e && e == db[..i + 1][i];
      } else {
        assert Keys(merged)[n] != Key(e);
        BestMore(db, i, orphans, merged[n]);
      }
    }
    hide Best, Distinct;
    forall m | 0 <= m < i + 1 ensures Key(db[m]) in Keys(r) { }
  }

  lemma {:induction false} AddOrphanBest(db: seq<Entry>, i: nat, orphans: seq<Entry>, merged: seq<Entry>, e: Entry)
    requires i <= |db| && e.id == 0 && e in orphans && AllBest(db, i, orphans, merged)
    ensures AllBest(db, i, orphans, Add(merged, e)) && |Add(merged, e)| <= |merged| + 1
  {
    AddKeyDistinct(Keys(merged), Key(e));
    if Key(e) !in Keys(merged) {
      forall m | 0 <= m < i ensures Keys(db[..i])[m] != Key(e) { assert Key(db[m]) in Keys(merged); }
      assert Best(db, i, orphans, e);
    }
    hide Best, Distinct;
  }

  lemma {:induction false} MergeBest(db: seq<Entry>, orphans: seq<Entry>, i: nat, j: nat, merged: seq<Entry>)
    requires OwnKeys(db) && Told(db, orphans) && i <= |db| && j <= |orphans|
    requires |merged| <= i + j && AllBest(db, i, orphans, merged)
    ensures AllBest(db, |db|, orphans, Merge(db, orphans, |db| + |orphans|, i, j, merged))
    decreases |db| - i + |orphans| - j
  {
    hide AllBest, Add, OwnKeys, Key, Keys;
    if i == |db| && j == |orphans| {
    } else if TakeDb(db, orphans, i, j) {
      assert db[i].id != 0;
      AddRecordBest(db, i, orphans, merged);
      MergeBest(db, orphans, i + 1, j, Add(merged, db[i]));
    } else {
      assert orphans[j].id == 0;
      AddOrphanBest(db, i, orphans, merged, orphans[j]);
      MergeBest(db, orphans, i, j + 1, Add(merged, orphans[j]));
    }
  }

  /** Under a key that both sources hold stands the record; an orphan stands only for a file without one. */
  lemma {:induction false} RecordsStand(db: seq<Entry>, orphans: seq<Entry>, n: nat)
    requires OwnKeys(db) && Told(db, orphans) && n < |Merge(db, orphans, |db| + |orphans|, 0, 0, [])|
    ensures var e := Merge(db, orphans, |db| + |orphans|, 0, 0, [])[n];
      if Key(e) in Keys(db) then e in db else e in orphans
  {
    assert AllBest(db, 0, orphans, []);
    MergeBest(db, orphans, 0, 0, []);
    hide Merge, OwnKeys;
    assert db[..|db|] == db;
    var e := Merge(db, orphans, |db| + |orphans|, 0, 0, [])[n];
    assert Best(db, |db|, orphans, e);
    if e.id != 0 {
      var m :| 0 <= m < |db| && db[m] == e;
      assert Keys(db)[m] == Key(e);
    }
  }

  // ---------- pages ----------

  /** `limit` is the cap on the number of entries the listing serves; `db` is everything the
      query matches, `size` the page size after clamping to 1..200. */
  function PageCount(db: seq<Entry>, orphans: seq<Entry>, size: nat, limit: nat): (n: nat)
    requires size >= 1
    ensures n >= 1
  {
    var all := |db| + |orphans|;
    var total := if all > limit then limit else all;
    var pages := (total + size - 1) / size;
    if pages < 1 then 1 else pages
  }

  /** The pages are just as many as it takes to hold what is served, and one for nothing. */
  lemma PageCountExact(db: seq<Entry>, orphans: seq<Entry>, size: nat, limit: nat)
    requires size >= 1
    ensures var total, pages := Min(|db| + |orphans|, limit), PageCount(db, orphans, size, limit);
      total <= pages * size && (pages > 1 ==> (pages - 1) * size < total)
  {
    var total, pages := Min(|db| + |orphans|, limit), PageCount(db, orphans, size, limit);
    CeilReaches(total, pages, size);
    if pages > 1 { CeilReaches(total, pages - 1, size); }
  }

  function Min(a: nat, b: nat): nat { if a < b then a else b }

  /** Where a page starts. */
  function Offset(page: nat, size: nat): nat
    requires page >= 1
  {
    (page - 1) * size
  }

  /** How many entries the page fetches from the database. */
  function Window(db: seq<Entry>, page: nat, size: nat, limit: nat): (w: nat)
    requires page >= 1
    ensures w <= |db|
  {
    Min(Min(Offset(page, size) + size, limit), |db|)
  }

  function Slice(items: seq<Entry>, offset: nat, size: nat): (r: seq<Entry>)
    ensures |r| <= size
  {
    if offset >= |items| then [] else items[offset..Min(offset + size, |items|)]
  }

  /** The page shown for a request; a page number past the end shows the last page. */
  function Page(db: seq<Entry>, orphans: seq<Entry>, page: nat, size: nat, limit: nat): (items: seq<Entry>)
    requires size >= 1 && page >= 1
    ensures |items| <= size
  {
    var shown := Min(page, PageCount(db, orphans, size, limit));
    var offset := Offset(shown, size);
    Slice(Merge(db[..Window(db, page, size, limit)], orphans, offset + size, 0, 0, []), offset, size)
  }

  /** The cut out of the merged window, as the code takes it. */
  method Cut(merged: seq<Entry>, offset: nat, size: nat) returns (items: seq<Entry>)
    ensures items == Slice(merged, offset, size)
  {
    items := if offset < |merged| then merged[offset..] else [];
    if |items| > size { items := items[..size]; }
  }

  lemma PageStart(page: nat, size: nat)
    requires page >= 1
    ensures Offset(page, size) + size == page * size == Offset(page + 1, size)
  {
  }

  method CountPages(db: seq<Entry>, orphans: seq<Entry>, size: nat, limit: nat) returns (pages: nat)
    requires size >= 1
    ensures pages == PageCount(db, orphans, size, limit)
  {
    var total := |db| + |orphans|;
    if total > limit { total := limit; }
    pages := (total + size - 1) / size;
    if pages < 1 { pages := 1; }
  }

  /** The code of ListLibraryDownloadsPage after the queries. */
  method ListPage(db: seq<Entry>, orphans: seq<Entry>, requested: int, size: nat, limit: nat) returns (items: seq<Entry>, pages: nat)
    requires size >= 1
    ensures pages == PageCount(db, orphans, size, limit)
    ensures items == Page(db, orphans, if requested < 1 then 1 else requested, size, limit)
  {
    hide Merge, Slice, PageCount;
    var page: nat := if requested < 1 then 1 else requested;
    var need := Offset(page, size) + size;
    if need > limit { need := limit; }
    var dbItems := if need > |db| then db else db[..need];
    assert dbItems == db[..Window(db, page, size, limit)];
    pages := CountPages(db, orphans, size, limit);
    if page > pages { page := pages; }
    hide Window, Offset;
    var offset := Offset(page, size);
    var merged := MergeLibraryEntries(dbItems, orphans, offset + size);
    items := Cut(merged, offset, size);
  }

  /** The keys in positions `from`..`to` of a listing, as far as it reaches. */
  function KeySlice(ks: seq<EntryKey>, from: nat, to: nat): seq<EntryKey> {
    if from >= |ks| || to <= from then [] else ks[from..Min(to, |ks|)]
  }

  lemma SliceKeys(items: seq<Entry>, offset: nat, size: nat)
    ensures Keys(Slice(items, offset, size)) == KeySlice(Keys(items), offset, offset + size)
  {
  }

  lemma {:induction false} WindowKeys(db: seq<Entry>, w: nat, orphans: seq<Entry>, reach: nat, need: nat)
    requires OwnKeys(db) && w <= |db| && reach <= need && (reach <= w || w == |db|)
    ensures Upto(MergeKeys(db[..w], orphans, need, 0, 0, []), reach) == Upto(FullKeys(db, orphans), reach)
  {
    hide MergeKeys, Merge, Upto, OwnKeys, FullKeys;
    WindowedMerge(db, w, orphans, reach);
    MergeHasKeys(db[..w], orphans, reach, 0, 0, []);
    MergeIsPrefix(db[..w], orphans, reach, need, 0, 0, []);
  }

  lemma PageKeys(db: seq<Entry>, orphans: seq<Entry>, page: nat, size: nat, limit: nat)
    requires size >= 1 && 1 <= page <= PageCount(db, orphans, size, limit)
    ensures var offset := Offset(page, size);
      Keys(Page(db, orphans, page, size, limit))
        == KeySlice(MergeKeys(db[..Window(db, page, size, limit)], orphans, offset + size, 0, 0, []), offset, offset + size)
  {
    hide MergeKeys, Merge, Slice, KeySlice, PageCount, Window, Offset;
    var offset := Offset(page, size);
    var w := Window(db, page, size, limit);
    MergeHasKeys(db[..w], orphans, offset + size, 0, 0, []);
    SliceKeys(Merge(db[..w], orphans, offset + size, 0, 0, []), offset, size);
  }

  /** Every page shows exactly its slice of the full listing, as far as the cap reaches. */
  lemma {:induction false} PageIsSlice(db: seq<Entry>, orphans: seq<Entry>, page: nat, size: nat, limit: nat)
    requires OwnKeys(db) && size >= 1 && 1 <= page <= PageCount(db, orphans, size, limit)
    requires Offset(page, size) <= limit
    ensures var offset := Offset(page, size);
      Upto(Keys(Page(db, orphans, page, size, limit)), limit - offset)
        == KeySlice(FullKeys(db, orphans), offset, Min(offset + size, limit))
  {
    hide MergeKeys, OwnKeys, PageCount, FullKeys, Page, Offset;
    var offset := Offset(page, size);
    var w := Window(db, page, size, limit);
    var reach := Min(offset + size, limit);
    PageKeys(db, orphans, page, size, limit);
    WindowKeys(db, w, orphans, reach, offset + size);
    SliceOfPrefix(MergeKeys(db[..w], orphans, offset + size, 0, 0, []), FullKeys(db, orphans), offset, size, reach, limit);
  }

  lemma UptoSlice(ks: seq<EntryKey>, from: nat, to: nat, n: nat)
    ensures Upto(KeySlice(ks, from, to), n) == KeySlice(ks, from, Min(to, from + n))
  {
    var s := KeySlice(ks, from, to);
    if n < |s| { assert s[..n] == ks[from..from + n]; }
  }

  lemma SliceUpto(ks: seq<EntryKey>, from: nat, to: nat, reach: nat)
    requires to <= reach
    ensures KeySlice(Upto(ks, reach), from, to) == KeySlice(ks, from, to)
  {
    if reach < |ks| && from < to { assert ks[..reach][from..to] == ks[from..to]; }
  }

  lemma SliceOfPrefix(a: seq<EntryKey>, b: seq<EntryKey>, offset: nat, size: nat, reach: nat, limit: nat)
    requires offset <= limit && reach == Min(offset + size, limit) && Upto(a, reach) == Upto(b, reach)
    ensures Upto(KeySlice(a, offset, offset + size), limit - offset) == KeySlice(b, offset, reach)
  {
    hide KeySlice, Upto;
    UptoSlice(a, offset, offset + size, limit - offset);
    SliceUpto(a, offset, reach, reach);
    SliceUpto(b, offset, reach, reach);
  }

  function PagesFrom(db: seq<Entry>, orphans: seq<Entry>, page: nat, size: nat, limit: nat): seq<EntryKey>
    requires size >= 1 && page >= 1
    decreases PageCount(db, orphans, size, limit) + 1 - page
  {
    if page > PageCount(db, orphans, size, limit) then []
    else Keys(Page(db, orphans, page, size, limit)) + PagesFrom(db, orphans, page + 1, size, limit)
  }

  /** Reading the pages one after another lists the keys of both sources, each exactly once, in
      the order of the full merge, as far as the cap reaches. */
  lemma {:induction false} PagesListEveryKeyOnce(db: seq<Entry>, orphans: seq<Entry>, size: nat, limit: nat)
    requires OwnKeys(db) && size >= 1
    ensures var pages, full := PagesFrom(db, orphans, 1, size, limit), FullKeys(db, orphans);
      && Upto(pages, limit) == Upto(full, limit)
      && Distinct(full) && (forall k :: k in full <==> k in Keys(db) || k in Keys(orphans))
  {
    hide *;
    FirstStart(db, orphans, size, limit);
    PagesAreSuffix(db, orphans, 1, size, limit);
    SliceFromStart(FullKeys(db, orphans), limit);
    FullListsAll(db, orphans);
  }

  lemma FirstStart(db: seq<Entry>, orphans: seq<Entry>, size: nat, limit: nat)
    requires size >= 1
    ensures Offset(1, size) == 0 && 1 <= PageCount(db, orphans, size, limit)
  {
  }

  lemma SliceFromStart(ks: seq<EntryKey>, limit: nat)
    ensures KeySlice(ks, 0, limit) == Upto(ks, limit)
  {
  }

  /** The full merge lists the keys of both sources, each once. */
  lemma FullListsAll(db: seq<Entry>, orphans: seq<Entry>)
    ensures var full := FullKeys(db, orphans);
      Distinct(full) && (forall k :: k in full <==> k in Keys(db) || k in Keys(orphans))
  {
    hide Keys, Key, MergeKeys;
    MergeDistinct(db, orphans, |db| + |orphans|, 0, 0, []);
    assert db[0..] == db && orphans[0..] == orphans;
    forall k ensures k in FullKeys(db, orphans) <==> k in Keys(db) || k in Keys(orphans) {
      MergeMember(db, orphans, 0, 0, [], k);
    }
  }

  lemma {:induction false} PagesAreSuffix(db: seq<Entry>, orphans: seq<Entry>, page: nat, size: nat, limit: nat)
    requires OwnKeys(db) && size >= 1
    requires 1 <= page <= PageCount(db, orphans, size, limit) + 1
    requires page <= PageCount(db, orphans, size, limit) ==> Offset(page, size) <= limit
    ensures var offset := Offset(page, size);
      offset <= limit ==>
        Upto(PagesFrom(db, orphans, page, size, limit), limit - offset) == KeySlice(FullKeys(db, orphans), offset, limit)
    decreases PageCount(db, orphans, size, limit) + 1 - page
  {
    hide Merge, MergeKeys, FullKeys, OwnKeys, PageCount, Page, Offset, Keys, KeySlice, Min;
    var full, offset := FullKeys(db, orphans), Offset(page, size);
    var last := PageCount(db, orphans, size, limit);
    PageStart(page, size);
    if offset > limit {
    } else if page > last {
      PastTheLastPage(db, orphans, page, size, limit);
    } else {
      PageIsSlice(db, orphans, page, size, limit);
      if page < last { NextPageStarts(db, orphans, page + 1, size, limit); }
      PagesAreSuffix(db, orphans, page + 1, size, limit);
      if offset + size >= limit { NoPageBeyond(db, orphans, page, size, limit); }
      JoinSlices(Keys(Page(db, orphans, page, size, limit)), PagesFrom(db, orphans, page + 1, size, limit), full, offset, size, limit);
    }
  }


  lemma DivBelow(a: nat, size: nat, m: nat)
    requires size >= 1 && a < m * size
    ensures a / size < m
  {
    var q := a / size;
    assert q * size <= a;
    if m <= q { MulMonotone(m, q, size); }
  }

  lemma MulMonotone(a: nat, b: nat, c: nat)
    requires a <= b
    ensures a * c <= b * c
  {
  }

  lemma PastTheLastPage(db: seq<Entry>, orphans: seq<Entry>, page: nat, size: nat, limit: nat)
    requires size >= 1 && page > PageCount(db, orphans, size, limit)
    ensures KeySlice(FullKeys(db, orphans), Offset(page, size), limit) == []
  {
    hide MergeKeys;
    MergeSize(db, orphans, |db| + |orphans|, 0, 0, []);
    var total := Min(|db| + |orphans|, limit);
    CeilReaches(total, page - 1, size);
  }

  /** Fewer than the rounded-up quotient of pages do not reach the total. */
  lemma CeilReaches(total: nat, pages: nat, size: nat)
    requires size >= 1
    ensures (total + size - 1) / size <= pages <==> total <= pages * size
  {
    if total <= pages * size {
      assert (pages + 1) * size == pages * size + size;
      DivBelow(total + size - 1, size, pages + 1);
    } else {
      var q := (total + size - 1) / size;
      assert (total + size - 1) == q * size + (total + size - 1) % size;
      if q <= pages { MulMonotone(q, pages, size); }
    }
  }

  lemma NextPageStarts(db: seq<Entry>, orphans: seq<Entry>, page: nat, size: nat, limit: nat)
    requires size >= 1 && 2 <= page <= PageCount(db, orphans, size, limit)
    ensures Offset(page, size) <= limit
  {
    CeilReaches(Min(|db| + |orphans|, limit), page - 1, size);
  }

  lemma NoPageBeyond(db: seq<Entry>, orphans: seq<Entry>, page: nat, size: nat, limit: nat)
    requires size >= 1 && page >= 1 && page * size >= limit
    ensures page >= PageCount(db, orphans, size, limit)
  {
    CeilReaches(Min(|db| + |orphans|, limit), page, size);
  }

  lemma SplitSlice(full: seq<EntryKey>, from: nat, mid: nat, to: nat)
    requires from <= mid <= to
    ensures KeySlice(full, from, to) == KeySlice(full, from, mid) + KeySlice(full, mid, to)
    ensures |KeySlice(full, from, mid)| < mid - from ==> KeySlice(full, mid, to) == []
  {
    if mid < |full| && mid < to {
      var end := Min(to, |full|);
      assert full[from..end] == full[from..mid] + full[mid..end];
    }
  }

  lemma UptoJoin(a: seq<EntryKey>, rest: seq<EntryKey>, n: nat)
    requires |a| <= n
    ensures Upto(a + rest, n) == a + Upto(rest, n - |a|)
  {
    if n < |a + rest| { assert (a + rest)[..n] == a + rest[..n - |a|]; }
  }

  lemma JoinSlices(a: seq<EntryKey>, rest: seq<EntryKey>, full: seq<EntryKey>, offset: nat, size: nat, limit: nat)
    requires offset <= limit
    requires Upto(a, limit - offset) == KeySlice(full, offset, Min(offset + size, limit)) && |a| <= size
    requires offset + size >= limit ==> rest == []
    requires offset + size <= limit ==> Upto(rest, limit - offset - size) == KeySlice(full, offset + size, limit)
    ensures Upto(a + rest, limit - offset) == KeySlice(full, offset, limit)
  {
    hide KeySlice;
    if offset + size >= limit {
      assert a + rest == a;
    } else {
      SplitSlice(full, offset, offset + size, limit);
      UptoJoin(a, rest, limit - offset);
      if |a| < size { assert rest == []; }
    }
  }

  // ---------- the last page, where the cap falls inside it ----------

  /** The distinct keys of two sources. */
  ghost function KeySet(db: seq<Entry>, orphans: seq<Entry>): set<EntryKey> {
    set k | k in Keys(db) + Keys(orphans)
  }

  lemma {:induction false} DistinctSize(ks: seq<EntryKey>, s: set<EntryKey>)
    requires Distinct(ks) && forall k :: k in ks <==> k in s
    ensures |ks| == |s|
  {
    if ks == [] {
      assert s == {};
    } else {
      var n := |ks| - 1;
      assert forall k :: k in ks[..n] <==> k in s - {ks[n]};
      DistinctSize(ks[..n], s - {ks[n]});
    }
  }

  lemma FullSize(db: seq<Entry>, orphans: seq<Entry>)
    ensures |FullKeys(db, orphans)| == |KeySet(db, orphans)|
  {
    hide FullKeys, Keys, Distinct;
    FullListsAll(db, orphans);
    forall k ensures k in FullKeys(db, orphans) <==> k in KeySet(db, orphans) {
      assert k in Keys(db) + Keys(orphans) <==> k in Keys(db) || k in Keys(orphans);
    }
    DistinctSize(FullKeys(db, orphans), KeySet(db, orphans));
  }

  /** A page is cut out of the full merge of its database window. */
  lemma PageOfWindow(db: seq<Entry>, orphans: seq<Entry>, page: nat, size: nat, limit: nat)
    requires size >= 1 && 1 <= page <= PageCount(db, orphans, size, limit)
    ensures var offset, w := Offset(page, size), Window(db, page, size, limit);
      Keys(Page(db, orphans, page, size, limit)) == KeySlice(FullKeys(db[..w], orphans), offset, offset + size)
  {
    hide MergeKeys, FullKeys, Page, KeySlice, PageCount, Window, Offset;
    var offset, w := Offset(page, size), Window(db, page, size, limit);
    PageKeys(db, orphans, page, size, limit);
    BoundedMerge(db[..w], orphans, offset + size);
    SliceUpto(FullKeys(db[..w], orphans), offset, offset + size, offset + size);
  }

  /** The window's full merge starts like the full merge of everything. */
  lemma {:induction false} WindowStarts(db: seq<Entry>, w: nat, orphans: seq<Entry>, reach: nat)
    requires OwnKeys(db) && w <= |db| && (reach <= w || w == |db|)
    ensures Upto(FullKeys(db[..w], orphans), reach) == Upto(FullKeys(db, orphans), reach)
  {
    hide MergeKeys, Merge, Upto, OwnKeys, FullKeys;
    WindowKeys(db, w, orphans, reach, reach);
    BoundedMerge(db[..w], orphans, reach);
    MergeHasKeys(db[..w], orphans, reach, 0, 0, []);
    WindowedMerge(db, w, orphans, reach);
  }

  /** A page inside the cap, or any page of a database within the cap, is exactly its slice. */
  lemma {:induction false} PageInsideCap(db: seq<Entry>, orphans: seq<Entry>, page: nat, size: nat, limit: nat)
    requires OwnKeys(db) && size >= 1 && 1 <= page <= PageCount(db, orphans, size, limit)
    requires Offset(page, size) + size <= limit || |db| <= limit
    ensures var offset := Offset(page, size);
      Keys(Page(db, orphans, page, size, limit)) == KeySlice(FullKeys(db, orphans), offset, offset + size)
  {
    hide FullKeys, OwnKeys, PageCount, Page, Offset, KeySlice, Upto;
    var offset, w := Offset(page, size), Window(db, page, size, limit);
    PageOfWindow(db, orphans, page, size, limit);
    WindowStarts(db, w, orphans, offset + size);
    SliceUpto(FullKeys(db[..w], orphans), offset, offset + size, offset + size);
    SliceUpto(FullKeys(db, orphans), offset, offset + size, offset + size);
  }

  /** A listing that agrees with another up to the cap has the same capped slice exactly if it
      ends at the cap. */
  lemma CappedSlice(a: seq<EntryKey>, b: seq<EntryKey>, offset: nat, to: nat, limit: nat)
    requires offset <= limit < to && Upto(a, limit) == Upto(b, limit)
    ensures KeySlice(a, offset, to) == KeySlice(b, offset, limit) <==> |a| <= limit
  {
    SliceUpto(a, offset, limit, limit);
    SliceUpto(b, offset, limit, limit);
    assert KeySlice(a, offset, limit) == KeySlice(b, offset, limit);
    if |a| > limit {
      assert |KeySlice(a, offset, to)| > limit - offset >= |KeySlice(a, offset, limit)|;
    }
  }

  /** A page shows its part of the listing cut at the cap exactly when it ends by the cap or its
      database window and the orphans together hold no more distinct keys than the cap. */
  lemma {:induction false} PageWithinCapIff(db: seq<Entry>, orphans: seq<Entry>, page: nat, size: nat, limit: nat)
    requires OwnKeys(db) && size >= 1 && 1 <= page <= PageCount(db, orphans, size, limit)
    requires Offset(page, size) <= limit
    ensures var offset := Offset(page, size);
      (Keys(Page(db, orphans, page, size, limit)) == KeySlice(FullKeys(db, orphans), offset, Min(offset + size, limit)))
        <==> (offset + size <= limit || |KeySet(db[..Min(limit, |db|)], orphans)| <= limit)
  {
    hide FullKeys, OwnKeys, PageCount, Page, Offset, KeySlice, Upto, KeySet;
    var offset, w := Offset(page, size), Window(db, page, size, limit);
    if offset + size <= limit {
      PageInsideCap(db, orphans, page, size, limit);
    } else {
      PageOfWindow(db, orphans, page, size, limit);
      WindowStarts(db, w, orphans, limit);
      FullSize(db[..w], orphans);
      CappedSlice(FullKeys(db[..w], orphans), FullKeys(db, orphans), offset, offset + size, limit);
    }
  }

  // ---------- a page past the cap that is right all the same ----------

  /** The keys of the orphans that are newer than a record. */
  ghost function NewerKeys(orphans: seq<Entry>, e: Entry): set<EntryKey> {
    set n {:trigger Key(orphans[n])} | 0 <= n < |orphans| && orphans[n].created > e.created :: Key(orphans[n])
  }

  ghost function FirstKeys(db: seq<Entry>, w: nat): set<EntryKey>
    requires w <= |db|
  {
    set n {:trigger Key(db[n])} | 0 <= n < w :: Key(db[n])
  }

  /** The keys that stand before the first record left out, if none of the orphans is that record. */
  ghost function Ahead(db: seq<Entry>, w: nat, orphans: seq<Entry>): set<EntryKey>
    requires w < |db|
  {
    FirstKeys(db, w) + NewerKeys(orphans, db[w])
  }

  /** The merge has consumed `i` records and `j` orphans, and lists the keys of both. */
  ghost predicate Covers(db: seq<Entry>, orphans: seq<Entry>, i: nat, j: nat, ks: seq<EntryKey>)
    requires i <= |db| && j <= |orphans|
  {
    && (forall n {:trigger Key(db[n])} :: 0 <= n < i ==> Key(db[n]) in ks)
    && (forall n {:trigger Key(orphans[n])} :: 0 <= n < j ==> Key(orphans[n]) in ks)
  }

  /** When the first record left out is next, all that stands ahead of it is listed. */
  lemma {:induction false} AheadListed(db: seq<Entry>, w: nat, orphans: seq<Entry>, j: nat, ks: seq<EntryKey>)
    requires w < |db| && j <= |orphans| && Newest(orphans) && Covers(db, orphans, w, j, ks) && TakeDb(db, orphans, w, j)
    ensures forall k :: k in Ahead(db, w, orphans) ==> k in ks
    ensures |Ahead(db, w, orphans)| <= |ks|
  {
    forall k | k in Ahead(db, w, orphans) ensures k in ks {
      if k !in FirstKeys(db, w) {
        var n :| 0 <= n < |orphans| && orphans[n].created > db[w].created && Key(orphans[n]) == k;
        assert n < j;
      }
    }
    SetSmallerThanSeq(ks, Ahead(db, w, orphans));
  }

  /** The window lists what everything lists, as far as what stands ahead of the first record left out. */
  lemma {:induction false} NewerSuffice(db: seq<Entry>, w: nat, orphans: seq<Entry>, need: nat, i: nat, j: nat, ks: seq<EntryKey>)
    requires w < |db| && Newest(orphans) && need <= |Ahead(db, w, orphans)|
    requires i <= w && j <= |orphans| && Covers(db, orphans, i, j, ks)
    ensures MergeKeys(db[..w], orphans, need, i, j, ks) == MergeKeys(db, orphans, need, i, j, ks)
    decreases |db| - i + |orphans| - j
  {
    hide Ahead, Key, Newest;
    if |ks| >= need {
    } else if TakeDb(db, orphans, i, j) {
      if i == w {
        AheadListed(db, w, orphans, j, ks);
      } else {
        NewerSuffice(db, w, orphans, need, i + 1, j, AddKey(ks, Key(db[i])));
      }
    } else {
      NewerSuffice(db, w, orphans, need, i, j + 1, AddKey(ks, Key(orphans[j])));
    }
  }

  /** So far the merge lists nothing but what stands ahead of the first record left out. */
  ghost predicate OnlyAhead(db: seq<Entry>, w: nat, orphans: seq<Entry>, ks: seq<EntryKey>)
    requires w < |db|
  {
    forall k :: k in ks ==> k in Ahead(db, w, orphans)
  }

  lemma {:induction false} StillAhead(db: seq<Entry>, w: nat, orphans: seq<Entry>, i: nat, j: nat, ks: seq<EntryKey>)
    requires w < |db| && i <= w && j <= |orphans| && Newest(db) && OnlyAhead(db, w, orphans, ks)
    ensures TakeDb(db, orphans, i, j) && i < w ==> OnlyAhead(db, w, orphans, AddKey(ks, Key(db[i])))
    ensures !TakeDb(db, orphans, i, j) ==> j < |orphans| && OnlyAhead(db, w, orphans, AddKey(ks, Key(orphans[j])))
  {
    hide Key;
    assert db[i].created >= db[w].created;
    assert !TakeDb(db, orphans, i, j) ==> j < |orphans| && orphans[j].created > db[w].created;
  }

  /** The first record left out comes no later in the full merge than right behind what stands ahead of it. */
  lemma {:induction false} FirstLeftOut(db: seq<Entry>, w: nat, orphans: seq<Entry>, need: nat, i: nat, j: nat, ks: seq<EntryKey>)
    requires OwnKeys(db) && Newest(db) && w < |db| && Key(db[w]) !in Keys(orphans) && need > |Ahead(db, w, orphans)|
    requires i <= w && j <= |orphans| && Covers(db, orphans, i, j, ks) && Distinct(ks) && OnlyAhead(db, w, orphans, ks)
    ensures var r := MergeKeys(db, orphans, need, i, j, ks); Key(db[w]) in r[Min(w, |r|)..]
    decreases |db| - i + |orphans| - j
  {
    hide Ahead, Newest, OwnKeys, Distinct, Key, Covers;
    DistinctWithin(ks, Ahead(db, w, orphans));
    hide OnlyAhead;
    StillAhead(db, w, orphans, i, j, ks);
    if TakeDb(db, orphans, i, j) && i == w {
      LeftOutNext(db, w, orphans, need, j, ks);
    } else if TakeDb(db, orphans, i, j) {
      AddKeyDistinct(ks, Key(db[i]));
      CoversMore(db, orphans, i, j, ks);
      FirstLeftOut(db, w, orphans, need, i + 1, j, AddKey(ks, Key(db[i])));
    } else {
      AddKeyDistinct(ks, Key(orphans[j]));
      CoversMore(db, orphans, i, j, ks);
      FirstLeftOut(db, w, orphans, need, i, j + 1, AddKey(ks, Key(orphans[j])));
    }
  }

  lemma {:induction false} CoversMore(db: seq<Entry>, orphans: seq<Entry>, i: nat, j: nat, ks: seq<EntryKey>)
    requires i <= |db| && j <= |orphans| && Covers(db, orphans, i, j, ks)
    ensures i < |db| ==> Covers(db, orphans, i + 1, j, AddKey(ks, Key(db[i])))
    ensures j < |orphans| ==> Covers(db, orphans, i, j + 1, AddKey(ks, Key(orphans[j])))
  {
    hide Key;
  }

  lemma {:induction false} DistinctWithin(ks: seq<EntryKey>, s: set<EntryKey>)
    requires Distinct(ks) && forall k :: k in ks ==> k in s
    ensures |ks| <= |s|
  {
    var own := set k | k in ks;
    DistinctSize(ks, own);
    assert own <= s && s == own + (s - own);
  }

  lemma {:induction false} FirstKeysSize(db: seq<Entry>, w: nat)
    requires OwnKeys(db) && w <= |db|
    ensures |FirstKeys(db, w)| == w
  {
    if w > 0 {
      FirstKeysSize(db, w - 1);
      assert FirstKeys(db, w) == FirstKeys(db, w - 1) + {Key(db[w - 1])};
      assert Key(db[w - 1]) !in FirstKeys(db, w - 1);
    }
  }

  lemma {:induction false} LeftOutNext(db: seq<Entry>, w: nat, orphans: seq<Entry>, need: nat, j: nat, ks: seq<EntryKey>)
    requires OwnKeys(db) && w < |db| && Key(db[w]) !in Keys(orphans) && |ks| < need
    requires j <= |orphans| && Covers(db, orphans, w, j, ks) && OnlyAhead(db, w, orphans, ks) && TakeDb(db, orphans, w, j)
    ensures var r := MergeKeys(db, orphans, need, w, j, ks); Key(db[w]) in r[Min(w, |r|)..]
  {
    var d := Key(db[w]);
    NotAhead(db, w, orphans);
    FirstKeysSize(db, w);
    SetSmallerThanSeq(ks, FirstKeys(db, w));
    hide Key, Ahead;
    assert d !in ks && AddKey(ks, d) == ks + [d];
    MergeExtends(db, orphans, need, w + 1, j, ks + [d]);
    var r := MergeKeys(db, orphans, need, w, j, ks);
    assert ks + [d] <= r;
    assert r[w..][|ks| - w] == d;
  }

  lemma {:induction false} NotAhead(db: seq<Entry>, w: nat, orphans: seq<Entry>)
    requires OwnKeys(db) && w < |db| && Key(db[w]) !in Keys(orphans)
    ensures Key(db[w]) !in Ahead(db, w, orphans)
  {
    forall n | 0 <= n < |orphans| ensures Key(orphans[n]) != Key(db[w]) { assert Keys(orphans)[n] == Key(orphans[n]); }
  }

  lemma {:induction false} NotInWindow(db: seq<Entry>, w: nat, orphans: seq<Entry>)
    requires OwnKeys(db) && w < |db| && Key(db[w]) !in Keys(orphans)
    ensures Key(db[w]) !in FullKeys(db[..w], orphans)
  {
    FullListsAll(db[..w], orphans);
    hide FullKeys, Key;
    forall n | 0 <= n < w ensures Keys(db[..w])[n] != Key(db[w]) { assert Key(db[n]) != Key(db[w]); }
  }

  /**
   * A page past the cap is exactly its uncut slice of the full listing if and only if the records up to the cap and
   * the orphans newer than the first record left out fill it - given that this record's file is not an orphan, too.
   */
  lemma {:induction false} PageUncutIff(db: seq<Entry>, orphans: seq<Entry>, page: nat, size: nat, limit: nat)
    requires OwnKeys(db) && Newest(db) && Newest(orphans) && |db| > limit && Key(db[limit]) !in Keys(orphans)
    requires size >= 1 && 1 <= page <= PageCount(db, orphans, size, limit) && Offset(page, size) <= limit < Offset(page, size) + size
    ensures var offset := Offset(page, size);
      (Keys(Page(db, orphans, page, size, limit)) == KeySlice(FullKeys(db, orphans), offset, offset + size))
        <==> (offset + size <= |Ahead(db, limit, orphans)|)
  {
    hide FullKeys, OwnKeys, PageCount, Page, Offset, KeySlice, Upto, Ahead, Key, Newest;
    var offset := Offset(page, size);
    var to := offset + size;
    PageOfWindow(db, orphans, page, size, limit);
    assert Window(db, page, size, limit) == limit;
    if to <= |Ahead(db, limit, orphans)| {
      PageUncut(db, orphans, limit, to);
      SliceUpto(FullKeys(db[..limit], orphans), offset, to, to);
      SliceUpto(FullKeys(db, orphans), offset, to, to);
    } else {
      LeftOutInSlice(db, orphans, limit, offset, to);
    }
  }

  lemma {:induction false} PageUncut(db: seq<Entry>, orphans: seq<Entry>, w: nat, to: nat)
    requires w < |db| && Newest(orphans) && to <= |Ahead(db, w, orphans)|
    ensures Upto(FullKeys(db[..w], orphans), to) == Upto(FullKeys(db, orphans), to)
  {
    hide FullKeys, Ahead, Newest, MergeKeys;
    BoundedMerge(db[..w], orphans, to);
    BoundedMerge(db, orphans, to);
    NewerSuffice(db, w, orphans, to, 0, 0, []);
  }

  lemma {:induction false} LeftOutInSlice(db: seq<Entry>, orphans: seq<Entry>, w: nat, offset: nat, to: nat)
    requires OwnKeys(db) && Newest(db) && w < |db| && Key(db[w]) !in Keys(orphans)
    requires offset <= w < to && to > |Ahead(db, w, orphans)|
    ensures KeySlice(FullKeys(db[..w], orphans), offset, to) != KeySlice(FullKeys(db, orphans), offset, to)
  {
    hide Ahead, Newest, MergeKeys, Key, OwnKeys;
    BoundedMerge(db, orphans, to);
    FirstLeftOut(db, w, orphans, to, 0, 0, []);
    NotInWindow(db, w, orphans);
    var full, d := FullKeys(db, orphans), Key(db[w]);
    hide FullKeys;
    SliceUpto(full, offset, to, to);
    InSlice(Upto(full, to), offset, w, to, d);
    NotInSlice(FullKeys(db[..w], orphans), offset, to, d);
  }

  lemma InSlice(ks: seq<EntryKey>, offset: nat, from: nat, to: nat, k: EntryKey)
    requires offset <= from < to && |ks| <= to && k in ks[Min(from, |ks|)..]
    ensures k in KeySlice(ks, offset, to)
  {
    var n :| Min(from, |ks|) <= n < |ks| && ks[n] == k;
    assert KeySlice(ks, offset, to)[n - offset] == k;
  }

  lemma NotInSlice(ks: seq<EntryKey>, offset: nat, to: nat, k: EntryKey)
    requires k !in ks
    ensures k !in KeySlice(ks, offset, to)
  {
  }

  // ---------- a page number past the end ----------

  /** A page number past the end shows the last page, entry for entry, although its window is larger. */
  lemma {:induction false} PagePastTheEnd(db: seq<Entry>, orphans: seq<Entry>, page: nat, size: nat, limit: nat)
    requires OwnKeys(db) && size >= 1 && page >= PageCount(db, orphans, size, limit)
    ensures Page(db, orphans, page, size, limit) == Page(db, orphans, PageCount(db, orphans, size, limit), size, limit)
  {
    hide Merge, OwnKeys, PageCount, Offset, Slice;
    var last := PageCount(db, orphans, size, limit);
    var need := Offset(last, size) + size;
    OffsetGrows(last, page, size);
    if need <= limit {
      WindowMerges(db, Window(db, last, size, limit), orphans, need);
      WindowMerges(db, Window(db, page, size, limit), orphans, need);
    } else {
      assert Window(db, last, size, limit) == Window(db, page, size, limit);
    }
  }

  lemma OffsetGrows(a: nat, b: nat, size: nat)
    requires 1 <= a <= b
    ensures Offset(a, size) <= Offset(b, size)
  {
    MulMonotone(a - 1, b - 1, size);
  }

  // ---------- the cap at work ----------

  ghost predicate AllNewer(db: seq<Entry>, z: Entry) {
    forall n {:trigger db[n].created} :: 0 <= n < |db| ==> db[n].created >= z.created
  }

  /** An orphan older than every record comes last. */
  lemma {:induction false} OldestLast(db: seq<Entry>, z: Entry, need: nat, i: nat)
    requires OwnKeys(db) && Key(z) !in Keys(db) && AllNewer(db, z) && i <= |db| < need
    ensures Merge(db, [z], need, i, 0, db[..i]) == db + [z]
    decreases |db| - i
  {
    if i == |db| {
      forall n | 0 <= n < i ensures Key(db[..i][n]) != Key(z) { assert Keys(db)[n] == Key(db[n]); }
      AddNew(db, z);
      hide Add, Key, Keys;
      assert db[..i] == db;
      assert Merge(db, [z], need, i, 1, db + [z]) == db + [z];
    } else {
      AddNew(db[..i], db[i]);
      hide Add, Key, Keys, OwnKeys;
      assert db[i].created >= z.created;
      assert db[..i] + [db[i]] == db[..i + 1];
      OldestLast(db, z, need, i + 1);
    }
  }

  lemma {:induction false} WindowFacts(db: seq<Entry>, z: Entry, w: nat)
    requires OwnKeys(db) && Key(z) !in Keys(db) && AllNewer(db, z) && w <= |db|
    ensures OwnKeys(db[..w]) && Key(z) !in Keys(db[..w]) && AllNewer(db[..w], z)
  {
    hide Key;
    var head := db[..w];
    forall n | 0 <= n < w ensures Keys(head)[n] != Key(z) {
      assert Keys(db)[n] == Key(db[n]) == Key(head[n]);
    }
  }

  lemma ReachedPage(db: seq<Entry>, orphans: seq<Entry>, page: nat, size: nat, limit: nat)
    requires page >= 1 && size >= 1 && |db| >= limit && Offset(page, size) < limit
    ensures page <= PageCount(db, orphans, size, limit)
  {
    CeilReaches(limit, page - 1, size);
  }

  /** The full listing puts an orphan older than every record last. */
  lemma {:induction false} OldestLastKeys(db: seq<Entry>, z: Entry)
    requires OwnKeys(db) && Key(z) !in Keys(db) && AllNewer(db, z)
    ensures FullKeys(db, [z]) == Keys(db) + [Key(z)]
  {
    OldestLast(db, z, |db| + 1, 0);
    MergeHasKeys(db, [z], |db| + 1, 0, 0, []);
    assert db[..0] == [];
    hide Key, Merge, MergeKeys;
    assert (db + [z])[..|db|] == db;
  }

  /** Beyond the cap the last page goes wrong: the database window stops at the cap while the
      merge runs on, so the orphan follows the newest `limit` records, although in the full
      listing it stands behind all of them. */
  lemma {:induction false} LastPagePastTheCap(db: seq<Entry>, z: Entry, page: nat, size: nat, limit: nat)
    requires OwnKeys(db) && Key(z) !in Keys(db) && AllNewer(db, z) && |db| > limit
    requires size >= 1 && page >= 1 && Offset(page, size) < limit < Offset(page, size) + size
    ensures Page(db, [z], page, size, limit) == db[Offset(page, size)..limit] + [z]
    ensures FullKeys(db, [z]) == Keys(db) + [Key(z)]
  {
    hide Merge, Key, Keys, OwnKeys, AllNewer, FullKeys, PageCount;
    var offset := Offset(page, size);
    OldestLastKeys(db, z);
    ReachedPage(db, [z], page, size, limit);
    WindowFacts(db, z, limit);
    OldestLast(db[..limit], z, offset + size, 0);
    assert db[..limit][..0] == [] && Window(db, page, size, limit) == limit;
    assert (db[..limit] + [z])[offset..limit + 1] == db[offset..limit] + [z];
  }

  const MAX_LIBRARY_DOWNLOADS := 100_000
  const DEFAULT_PAGE_SIZE := 60

  /** At the program's own cap and page size: page 1667 shows an orphan that is older than every
      one of the more than 100000 records, in the place of the 100001st record. */
  lemma {:induction false} DefaultLastPage(db: seq<Entry>, z: Entry)
    requires OwnKeys(db) && Key(z) !in Keys(db) && AllNewer(db, z) && |db| > MAX_LIBRARY_DOWNLOADS
    ensures Page(db, [z], 1667, DEFAULT_PAGE_SIZE, MAX_LIBRARY_DOWNLOADS) == db[99_960..100_000] + [z]
    ensures Upto(FullKeys(db, [z]), 100_001) == Keys(db)[..100_000] + [Key(db[100_000])]
    ensures Key(db[100_000]) != Key(z)
  {
    hide Page, Key, OwnKeys, AllNewer, FullKeys;
    LastPagePastTheCap(db, z, 1667, DEFAULT_PAGE_SIZE, MAX_LIBRARY_DOWNLOADS);
    assert Keys(db)[100_000] == Key(db[100_000]);
  }

  lemma {:induction false} AddNew(merged: seq<Entry>, e: Entry)
    requires forall n :: 0 <= n < |merged| ==> Key(merged[n]) != Key(e)
    ensures Add(merged, e) == merged + [e]
  {
  }
}
