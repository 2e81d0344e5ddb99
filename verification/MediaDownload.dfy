/** The downloads table as rows: paged lookups of copies, and one call of downloadMedia alone. */
module MediaDownload {
  import opened Options
  import opened MediaStore

  const PAGE: nat := 500

  /** A row of the downloads table; its place in the table stands for its id. */
  datatype Row = Row(id: Id, key: string, rec: Rec)

  datatype Query = ByKey(key: string) | ByHash(hash: string)

  predicate Match(q: Query, row: Row) {
    match q
    case ByKey(k) => row.key == k
    case ByHash(h) => row.rec.hash == h
  }

  predicate Names(row: Row, path: string) { row.rec.path == path }

  predicate PathIn(rows: seq<Row>, path: string) { exists i :: 0 <= i < |rows| && Names(rows[i], path) }

  /** One row for each path, the first. */
  ghost function Copies(rows: seq<Row>, q: Query): seq<Row> {
    if rows == [] then []
    else
      var rest, row := Copies(rows[..|rows| - 1], q), rows[|rows| - 1];
      if Match(q, row) && row.rec.path != "" && !PathIn(rest, row.rec.path) then rest + [row] else rest
  }

  ghost function Slice(xs: seq<Row>, offset: nat, limit: nat): seq<Row> {
    if offset >= |xs| then [] else if offset + limit >= |xs| then xs[offset..] else xs[offset..offset + limit]
  }

  lemma CopiesOneMore(rows: seq<Row>, q: Query, row: Row)
    ensures Copies(rows + [row], q)
         == if Match(q, row) && row.rec.path != "" && !PathIn(Copies(rows, q), row.rec.path) then Copies(rows, q) + [row] else Copies(rows, q)
  {
    assert (rows + [row])[..|rows|] == rows;
  }

  lemma {:induction false} CopiesCover(rows: seq<Row>, q: Query, i: nat)
    requires i < |rows| && Match(q, rows[i]) && rows[i].rec.path != ""
    ensures PathIn(Copies(rows, q), rows[i].rec.path)
  {
    var front, row := rows[..|rows| - 1], rows[|rows| - 1];
    var rest := Copies(front, q);
    if i < |front| {
      CopiesCover(front, q, i);
      var j :| 0 <= j < |rest| && Names(rest[j], rows[i].rec.path);
      assert Names((rest + [row])[j], rows[i].rec.path);
    } else {
      assert Names((rest + [row])[|rest|], row.rec.path);
    }
  }

  /** The first row with its path among those that match. */
  ghost predicate FirstOfPath(rows: seq<Row>, q: Query, k: nat)
    requires k < |rows|
  {
    && Match(q, rows[k]) && rows[k].rec.path != ""
    && forall i {:trigger rows[i]} :: 0 <= i < k && Match(q, rows[i]) ==> rows[i].rec.path != rows[k].rec.path
  }

  /** The copies are the rows that are first with their path, in table order: `at` are their places. */
  lemma {:induction false} CopiesFirst(rows: seq<Row>, q: Query) returns (at: seq<nat>)
    ensures |at| == |Copies(rows, q)|
    ensures forall i {:trigger at[i]} :: 0 <= i < |at| ==> at[i] < |rows| && FirstOfPath(rows, q, at[i]) && Copies(rows, q)[i] == rows[at[i]]
    ensures forall i, j {:trigger at[i], at[j]} :: 0 <= i < j < |at| ==> at[i] < at[j]
  {
    if rows == [] {
      at := [];
    } else {
      var n := |rows| - 1;
      var front := rows[..n];
      at := CopiesFirst(front, q);
      forall k: nat | k < n && FirstOfPath(front, q, k) ensures FirstOfPath(rows, q, k) { assert forall i :: 0 <= i < n ==> front[i] == rows[i]; }
      if Match(q, rows[n]) && rows[n].rec.path != "" && !PathIn(Copies(front, q), rows[n].rec.path) {
        forall i | 0 <= i < n && Match(q, rows[i]) ensures rows[i].rec.path != rows[n].rec.path {
          if rows[i].rec.path == rows[n].rec.path {
            assert front[i] == rows[i];
            CopiesCover(front, q, i);
          }
        }
        assert FirstOfPath(rows, q, n);
        at := at + [n];
      }
    }
  }

  lemma {:induction false} CopiesMatch(rows: seq<Row>, q: Query, j: nat)
    requires j < |Copies(rows, q)|
    ensures Copies(rows, q)[j] in rows && Match(q, Copies(rows, q)[j])
  {
    var front, row := rows[..|rows| - 1], rows[|rows| - 1];
    assert rows == front + [row];
    if j < |Copies(front, q)| { CopiesMatch(front, q, j); }
  }

  /** A row that can stand in: it matches, it is not the file just saved, and its file is there. */
  predicate StandsIn(files: map<string, string>, q: Query, except: string, row: Row) {
    Match(q, row) && row.rec.path != "" && row.rec.path != except && row.rec.path in files
  }

  ghost predicate NoneStandsIn(files: map<string, string>, q: Query, except: string, rows: seq<Row>) {
    forall i {:trigger rows[i]} :: 0 <= i < |rows| ==> !StandsIn(files, q, except, rows[i])
  }

  /** Merging rows by path loses no file: if no copy stands in, no row does. */
  lemma CopiesSuffice(files: map<string, string>, q: Query, except: string, rows: seq<Row>)
    requires NoneStandsIn(files, q, except, Copies(rows, q))
    ensures NoneStandsIn(files, q, except, rows)
  {
    forall i | 0 <= i < |rows| ensures !StandsIn(files, q, except, rows[i]) {
      if StandsIn(files, q, except, rows[i]) {
        CopiesCover(rows, q, i);
        var cs := Copies(rows, q);
        var j :| 0 <= j < |cs| && Names(cs[j], rows[i].rec.path);
        CopiesMatch(rows, q, j);
      }
    }
  }

  lemma NoneYet(files: map<string, string>, q: Query, except: string, rows: seq<Row>)
    ensures NoneStandsIn(files, q, except, rows[..0])
  {
  }

  lemma NoneMore(files: map<string, string>, q: Query, except: string, rows: seq<Row>, n: nat)
    requires n < |rows| && NoneStandsIn(files, q, except, rows[..n]) && !StandsIn(files, q, except, rows[n])
    ensures NoneStandsIn(files, q, except, rows[..n + 1])
  {
    hide StandsIn;
    var more := rows[..n + 1];
    forall i | 0 <= i < |more| ensures !StandsIn(files, q, except, more[i]) {
      if i < n { assert rows[..n][i] == rows[i]; }
    }
  }

  // ---------- the table as a map ----------

  ghost predicate UniqueIds(rows: seq<Row>) {
    forall i, j {:trigger rows[i], rows[j]} :: 0 <= i < j < |rows| ==> rows[i].id != rows[j].id
  }

  ghost function Recs(rows: seq<Row>): map<Id, Rec> {
    if rows == [] then map[] else Recs(rows[..|rows| - 1])[rows[|rows| - 1].id := rows[|rows| - 1].rec]
  }

  lemma RecsOneMore(rows: seq<Row>, row: Row)
    ensures Recs(rows + [row]) == Recs(rows)[row.id := row.rec]
  {
    assert (rows + [row])[..|rows|] == rows;
  }

  lemma {:induction false} RecsAt(rows: seq<Row>, i: nat)
    requires UniqueIds(rows) && i < |rows|
    ensures rows[i].id in Recs(rows) && Recs(rows)[rows[i].id] == rows[i].rec
  {
    if i < |rows| - 1 { RecsAt(rows[..|rows| - 1], i); }
  }

  lemma {:induction false} RecsFrom(rows: seq<Row>, id: Id) returns (i: nat)
    requires id in Recs(rows)
    ensures i < |rows| && rows[i].id == id
  {
    if rows[|rows| - 1].id == id { return |rows| - 1; }
    i := RecsFrom(rows[..|rows| - 1], id);
  }

  lemma {:induction false} NotRecorded(rows: seq<Row>, id: Id)
    requires forall i {:trigger rows[i]} :: 0 <= i < |rows| ==> rows[i].id != id
    ensures id !in Recs(rows)
  {
    if rows != [] { NotRecorded(rows[..|rows| - 1], id); }
  }

  lemma {:induction false} RecsUpdate(rows: seq<Row>, i: nat, row: Row)
    requires UniqueIds(rows) && i < |rows| && rows[i].id == row.id
    ensures UniqueIds(rows[i := row]) && Recs(rows[i := row]) == Recs(rows)[row.id := row.rec]
  {
    var n := |rows| - 1;
    if i < n {
      RecsUpdate(rows[..n], i, row);
      assert rows[i := row][..n] == rows[..n][i := row];
    } else {
      assert rows[i := row][..n] == rows[..n];
    }
  }

  ghost predicate KeysOk(e: Env, rows: seq<Row>) { forall i {:trigger rows[i]} :: 0 <= i < |rows| ==> rows[i].key == e.key(rows[i].id.url) }

  ghost predicate PathsOk(rows: seq<Row>) { forall i {:trigger rows[i]} :: 0 <= i < |rows| ==> rows[i].rec.path != "" && rows[i].rec.hash != "" }

  datatype Fetched = Unavailable | File(path: string, content: string)

  datatype Outcome = Skipped | Copied(from: Row) | Failed | Linked(from: Row) | Stored

  class Downloads {
    var files: map<string, string>
    var rows: seq<Row>
    const e: Env

    ghost function L(): Library
      reads this
    {
      Library(files, Recs(rows), map[])
    }

    ghost predicate Valid()
      reads this
    {
      UniqueIds(rows) && KeysOk(e, rows) && PathsOk(rows) && Inv(e, L())
    }

    constructor (e: Env)
      ensures this.e == e && Valid() && files == map[] && rows == []
    {
      this.e, files, rows := e, map[], [];
    }

    method FindPage(q: Query, offset: nat) returns (page: seq<Row>)
      ensures page == Slice(Copies(rows, q), offset, PAGE)
    {
      assert Copies([], q) == [] && Paths([], {});
      hide PathIn, Match;
      var copies: seq<Row>, paths: set<string> := [], {};
      for n := 0 to |rows|
        invariant copies == Copies(rows[..n], q) && Paths(copies, paths)
      {
        var row := rows[n];
        assert rows[..n + 1] == rows[..n] + [row];
        CopiesOneMore(rows[..n], q, row);
        PathsOneMore(copies, paths, row);
        if Match(q, row) && row.rec.path != "" && row.rec.path !in paths {
          copies, paths := copies + [row], paths + {row.rec.path};
        }
      }
      assert rows[..|rows|] == rows;
      page := if offset >= |copies| then [] else if offset + PAGE >= |copies| then copies[offset..] else copies[offset..offset + PAGE];
    }

    /** Turns page after page until a file is there or a page is short. */
    method FirstArchived(q: Query, except: string) returns (found: Option<Row>)
      ensures found.Some? ==> found.value in rows && StandsIn(files, q, except, found.value)
      ensures found.None? ==> NoneStandsIn(files, q, except, rows)
    {
      hide Copies, NoneStandsIn, Match;
      ghost var copies := Copies(rows, q);
      var offset := 0;
      NoneYet(files, q, except, copies);
      while true
        invariant offset <= |copies| && NoneStandsIn(files, q, except, copies[..offset])
        decreases |copies| - offset
      {
        var page := FindPage(q, offset);
        for n := 0 to |page|
          invariant NoneStandsIn(files, q, except, copies[..offset + n])
        {
          var row := page[n];
          assert row == copies[offset + n];
          CopiesMatch(rows, q, offset + n);
          if row.rec.path != except && row.rec.path in files && row.rec.path != "" { return Some(row); }
          NoneMore(files, q, except, copies, offset + n);
        }
        if |page| < PAGE {
          assert copies[..offset + |page|] == copies;
          CopiesSuffice(files, q, except, rows);
          return None;
        }
        offset := offset + PAGE;
      }
    }

    /** One row per tweet and URL; an empty hash does not erase a known one. */
    method CreateDownload(id: Id, rec: Rec)
      requires UniqueIds(rows) && KeysOk(e, rows)
      modifies this`rows
      ensures UniqueIds(rows) && KeysOk(e, rows)
      ensures id !in Recs(old(rows)) ==> rows == old(rows) + [Row(id, e.key(id.url), rec)]
      ensures Recs(rows) == Recs(old(rows))[id := if id in Recs(old(rows)) && rec.hash == "" then Rec(Recs(old(rows))[id].hash, rec.path) else rec]
    {
      hide Recs;
      for n := 0 to |rows|
        invariant rows == old(rows) && forall i {:trigger rows[i]} :: 0 <= i < n ==> rows[i].id != id
      {
        if rows[n].id == id {
          var hash := if rec.hash == "" then rows[n].rec.hash else rec.hash;
          var row := Row(id, e.key(id.url), Rec(hash, rec.path));
          RecsAt(rows, n);
          RecsUpdate(rows, n, row);
          rows := rows[n := row];
          return;
        }
      }
      NotRecorded(rows, id);
      RecsOneMore(rows, Row(id, e.key(id.url), rec));
      rows := rows + [Row(id, e.key(id.url), rec)];
    }

    /**
     * One call, alone under its locks; `fetched` is what the publisher saved, under a name that was free.
     * Afterwards the medium is recorded once, at a file that holds its content, and no other record or file changed.
     */
    method DownloadMedia(id: Id, fetched: Fetched) returns (r: Outcome)
      requires Valid() && e.key(id.url) != ""
      requires fetched.File? ==> fetched.path != "" && fetched.path !in files && e.hash(fetched.content) != ""
      modifies this
      ensures Valid()
      ensures r.Skipped? <==> id in Recs(old(rows))
      ensures r.Skipped? || r.Failed? ==> files == old(files) && rows == old(rows)
      ensures r.Copied? ==> r.from in old(rows) && r.from.key == e.key(id.url)
                            && files == old(files) && Recs(rows) == Recs(old(rows))[id := r.from.rec]
      ensures !r.Skipped? && !r.Copied? ==> NoneStandsIn(old(files), ByKey(e.key(id.url)), "", old(rows))
      ensures r.Failed? ==> fetched.Unavailable?
      ensures r.Linked? ==> fetched.File? && r.from in old(rows) && r.from.rec.hash == e.hash(fetched.content)
                            && files == old(files) && Recs(rows) == Recs(old(rows))[id := r.from.rec]
      ensures r.Stored? ==> fetched.File? && files == old(files)[fetched.path := fetched.content]
                            && Recs(rows) == Recs(old(rows))[id := Rec(e.hash(fetched.content), fetched.path)]
                            && NoneStandsIn(old(files), ByHash(e.hash(fetched.content)), "", old(rows))
    {
      hide Inv, Recs, NoneStandsIn;
      var existing := Existing(id);
      if existing {
        return Skipped;
      }
      var copy := FirstArchived(ByKey(e.key(id.url)), "");
      if copy.Some? {
        CopyOk(e, files, rows, id, copy.value);
        CreateDownload(id, copy.value.rec);
        return Copied(copy.value);
      }
      if fetched.Unavailable? { return Failed; }
      var hash := e.hash(fetched.content);
      files := files[fetched.path := fetched.content];
      var same := FirstArchived(ByHash(hash), fetched.path);
      RowsNotAt(e, old(files), rows, fetched.path);
      if same.Some? {
        files := files - {fetched.path};
        assert files == old(files);
        assert NoneStandsIn(files, ByKey(e.key(id.url)), "", rows);
        LinkOk(e, files, rows, id, same.value);
        CreateDownload(id, same.value.rec);
        return Linked(same.value);
      }
      NoneBefore(old(files), files, ByHash(hash), fetched.path, rows);
      StoreOk(e, old(files), rows, id, fetched.path, fetched.content);
      CreateDownload(id, Rec(hash, fetched.path));
      return Stored;
    }

    /** A record of this tweet and URL whose file is there; under the invariant, any record. */
    method Existing(id: Id) returns (b: bool)
      requires Valid()
      ensures b <==> id in Recs(rows)
    {
      hide Inv, Recs;
      for n := 0 to |rows|
        invariant forall i {:trigger rows[i]} :: 0 <= i < n ==> rows[i].id != id
      {
        if rows[n].id == id {
          RecsAt(rows, n);
          RecordBacked(e, L(), id);
          if rows[n].rec.path in files { return true; }
        }
      }
      NotRecorded(rows, id);
      return false;
    }
  }

  ghost predicate Paths(rows: seq<Row>, paths: set<string>) { forall p {:trigger PathIn(rows, p)} :: PathIn(rows, p) <==> p in paths }

  lemma PathsOneMore(rows: seq<Row>, paths: set<string>, row: Row)
    requires Paths(rows, paths)
    ensures Paths(rows + [row], paths + {row.rec.path})
    ensures PathIn(rows, row.rec.path) <==> row.rec.path in paths
  {
    forall p ensures PathIn(rows + [row], p) <==> p in paths + {row.rec.path} {
      if PathIn(rows, p) {
        var i :| 0 <= i < |rows| && Names(rows[i], p);
        assert Names((rows + [row])[i], p);
      }
      assert Names((rows + [row])[|rows|], row.rec.path);
    }
  }

  lemma RecordBacked(e: Env, s: Library, id: Id)
    requires Inv(e, s) && id in s.recs
    ensures s.recs[id].path in s.files && e.hash(s.files[s.recs[id].path]) == s.recs[id].hash
  {
    assert RecOk(e, s, id);
  }

  /** With no calls under way the invariant is about files and records only. */
  lemma QuietInv(e: Env, s: Library)
    requires RecsOk(e, s) && PairsOk(e, s) && s.calls == map[]
    ensures Inv(e, s)
  {
  }

  lemma AddRecord(e: Env, s: Library, id: Id, r: Rec)
    requires Inv(e, s) && s.calls == map[] && id !in s.recs && r.path in s.files && e.hash(s.files[r.path]) == r.hash
    requires forall t {:trigger FitsRec(e, s, id, r, t)} :: FitsRec(e, s, id, r, t)
    ensures Inv(e, s.(recs := s.recs[id := r]))
  {
    var t := s.(recs := s.recs[id := r]);
    forall x ensures RecOk(e, t, x) { assert RecOk(e, s, x); }
    forall x, u ensures PairOk(e, t, x, u) {
      assert PairOk(e, s, x, u) && FitsRec(e, s, id, r, x) && FitsRec(e, s, id, r, u);
    }
    QuietInv(e, t);
  }

  lemma RowRecorded(rows: seq<Row>, row: Row)
    requires UniqueIds(rows) && row in rows
    ensures row.id in Recs(rows) && Recs(rows)[row.id] == row.rec
  {
    var i :| 0 <= i < |rows| && rows[i] == row;
    RecsAt(rows, i);
  }

  lemma CopyOk(e: Env, files: map<string, string>, rows: seq<Row>, id: Id, from: Row)
    requires UniqueIds(rows) && KeysOk(e, rows) && PathsOk(rows) && Inv(e, Library(files, Recs(rows), map[]))
    requires id !in Recs(rows) && from in rows && from.key == e.key(id.url)
    ensures Inv(e, Library(files, Recs(rows)[id := from.rec], map[])) && from.rec.path != "" && from.rec.hash != ""
  {
    var s := Library(files, Recs(rows), map[]);
    RowRecorded(rows, from);
    RecordBacked(e, s, from.id);
    forall t ensures FitsRec(e, s, id, from.rec, t) { assert PairOk(e, s, from.id, t); }
    AddRecord(e, s, id, from.rec);
    hide Inv, Recs;
  }

  lemma LinkOk(e: Env, files: map<string, string>, rows: seq<Row>, id: Id, from: Row)
    requires UniqueIds(rows) && KeysOk(e, rows) && PathsOk(rows) && Inv(e, Library(files, Recs(rows), map[]))
    requires id !in Recs(rows) && from in rows && NoneStandsIn(files, ByKey(e.key(id.url)), "", rows)
    ensures Inv(e, Library(files, Recs(rows)[id := from.rec], map[])) && from.rec.path != "" && from.rec.hash != ""
  {
    var s := Library(files, Recs(rows), map[]);
    RowRecorded(rows, from);
    RecordBacked(e, s, from.id);
    forall t ensures FitsRec(e, s, id, from.rec, t) {
      assert PairOk(e, s, from.id, t);
      NoKey(e, files, rows, id, t);
    }
    AddRecord(e, s, id, from.rec);
    hide Inv, Recs, NoneStandsIn;
  }

  lemma NoKey(e: Env, files: map<string, string>, rows: seq<Row>, id: Id, t: Id)
    requires UniqueIds(rows) && KeysOk(e, rows) && PathsOk(rows) && Inv(e, Library(files, Recs(rows), map[]))
    requires NoneStandsIn(files, ByKey(e.key(id.url)), "", rows)
    ensures t in Recs(rows) ==> e.key(t.url) != e.key(id.url)
  {
    if t in Recs(rows) {
      var i := RecsFrom(rows, t);
      RecsAt(rows, i);
      RecordBacked(e, Library(files, Recs(rows), map[]), t);
      hide Inv, Recs;
      assert !StandsIn(files, ByKey(e.key(id.url)), "", rows[i]);
    }
  }

  lemma NoHash(e: Env, files: map<string, string>, rows: seq<Row>, hash: string, t: Id)
    requires UniqueIds(rows) && PathsOk(rows) && Inv(e, Library(files, Recs(rows), map[]))
    requires NoneStandsIn(files, ByHash(hash), "", rows)
    ensures t in Recs(rows) ==> Recs(rows)[t].hash != hash
  {
    if t in Recs(rows) {
      var i := RecsFrom(rows, t);
      RecsAt(rows, i);
      RecordBacked(e, Library(files, Recs(rows), map[]), t);
      hide Inv, Recs;
      assert !StandsIn(files, ByHash(hash), "", rows[i]);
    }
  }

  lemma StoreOk(e: Env, files: map<string, string>, rows: seq<Row>, id: Id, path: string, content: string)
    requires UniqueIds(rows) && KeysOk(e, rows) && PathsOk(rows) && Inv(e, Library(files, Recs(rows), map[]))
    requires id !in Recs(rows) && path !in files
    requires NoneStandsIn(files, ByKey(e.key(id.url)), "", rows) && NoneStandsIn(files, ByHash(e.hash(content)), "", rows)
    ensures Inv(e, Library(files[path := content], Recs(rows)[id := Rec(e.hash(content), path)], map[]))
  {
    var s := Library(files, Recs(rows), map[]);
    AddFileKeeps(e, s, path, content);
    var s2, r := s.(files := files[path := content]), Rec(e.hash(content), path);
    forall t ensures FitsRec(e, s2, id, r, t) {
      NoKey(e, files, rows, id, t);
      NoHash(e, files, rows, e.hash(content), t);
    }
    hide Inv, Recs, NoneStandsIn;
    AddRecord(e, s2, id, r);
  }

  /** A free name is in no row. */
  lemma RowsNotAt(e: Env, files: map<string, string>, rows: seq<Row>, path: string)
    requires UniqueIds(rows) && Inv(e, Library(files, Recs(rows), map[])) && path !in files
    ensures forall i {:trigger rows[i]} :: 0 <= i < |rows| ==> rows[i].rec.path != path
  {
    forall i | 0 <= i < |rows| ensures rows[i].rec.path != path {
      RecsAt(rows, i);
      RecordBacked(e, Library(files, Recs(rows), map[]), rows[i].id);
    }
  }

  lemma NoneBefore(was: map<string, string>, files: map<string, string>, q: Query, path: string, rows: seq<Row>)
    requires NoneStandsIn(files, q, path, rows) && was.Keys <= files.Keys && path !in was
    ensures NoneStandsIn(was, q, "", rows)
  {
    forall i | 0 <= i < |rows| ensures !StandsIn(was, q, "", rows[i]) {
      assert !StandsIn(files, q, path, rows[i]);
    }
  }
}
