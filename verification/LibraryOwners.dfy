/** Attribution of files to users by directory prefix: the slash walk over an index. */
module LibraryOwners {
  import opened Options

  /** A row of the entity table, in the order of its id: the directory columns as they are
      stored, and the user's names. */
  datatype Row = Row(parent: string, name: string, screen: string, user: string)

  /** A user directory as a lookup sees it: `prefix` is normalised and ends in a slash. */
  datatype Entity = Entity(prefix: string, screen: string, name: string)

  // ---------- normalisation ----------

  function Slash(c: char): char { if c == '\\' then '/' else c }

  /** Lower-casing of ASCII letters alone. */
  function LowerAscii(c: char): char { if 'A' <= c <= 'Z' then c - 'A' + 'a' else c }

  function LowerSlash(c: char): char { LowerAscii(Slash(c)) }

  /** libraryMatchPath, used by the snapshot. */
  function MatchPath(path: string): (r: string)
    ensures |r| == |path|
    ensures forall i :: 0 <= i < |path| ==> r[i] == LowerSlash(path[i])
  {
    if path == "" then "" else MatchPath(path[..|path| - 1]) + [LowerSlash(path[|path| - 1])]
  }

  /** The array listing lower-cases by the whole Unicode table `lower`. */
  function ArrayPath(lower: char -> char, path: string): (r: string)
    ensures |r| == |path|
    ensures forall i :: 0 <= i < |path| ==> r[i] == lower(Slash(path[i]))
  {
    if path == "" then "" else ArrayPath(lower, path[..|path| - 1]) + [lower(Slash(path[|path| - 1]))]
  }

  function TrimRight(s: string): (r: string)
    ensures r <= s
    ensures r == "" || r[|r| - 1] != '/'
  {
    if s != "" && s[|s| - 1] == '/' then TrimRight(s[..|s| - 1]) else s
  }

  function TrimLeft(s: string): (r: string) {
    if s != "" && s[0] == '/' then TrimLeft(s[1..]) else s
  }

  /** libraryEntityPrefixPath, used by the snapshot. */
  function SnapshotPrefix(parent: string, name: string): (r: string)
    ensures r != "" ==> r[|r| - 1] == '/'
  {
    var p, n := TrimRight(MatchPath(parent)), TrimRight(TrimLeft(MatchPath(name)));
    if n == "" then "" else if p == "" then n + "/" else p + "/" + n + "/"
  }

  /** The prefix column of the array listing, lower-cased. */
  function ArrayPrefix(lower: char -> char, parent: string, name: string): (r: string)
    requires lower('/') == '/'
    ensures r != "" && r[|r| - 1] == '/'
  {
    ArrayPath(lower, parent + "/" + name + "/")
  }

  function ArrayEntity(lower: char -> char, row: Row): (e: Entity)
    requires lower('/') == '/'
    ensures Slashed(e.prefix)
  {
    Entity(ArrayPrefix(lower, row.parent, row.name), row.screen, row.user)
  }

  function SnapEntity(row: Row): (e: Entity)
    ensures e.prefix == "" || Slashed(e.prefix)
  {
    Entity(SnapshotPrefix(row.parent, row.name), row.screen, row.user)
  }

  function ArrayTable(lower: char -> char, rows: seq<Row>): (es: seq<Entity>)
    requires lower('/') == '/'
  {
    seq(|rows|, i requires 0 <= i < |rows| => ArrayEntity(lower, rows[i]))
  }

  function SnapTable(rows: seq<Row>): (es: seq<Entity>) {
    seq(|rows|, i requires 0 <= i < |rows| => SnapEntity(rows[i]))
  }

  predicate Slashed(s: string) { s != "" && s[|s| - 1] == '/' }

  ghost predicate AllSlashed(es: seq<Entity>) {
    forall i {:trigger es[i].prefix} :: 0 <= i < |es| ==> Slashed(es[i].prefix)
  }

  /** Both sides lower-case every character of `s` alike. */
  ghost predicate LowersAlike(lower: char -> char, s: string) {
    forall i {:trigger s[i]} :: 0 <= i < |s| ==> lower(Slash(s[i])) == LowerSlash(s[i])
  }

  /** A column that is not empty and has no slash at its end. */
  predicate EndsPlain(s: string) { s != "" && LowerSlash(s[|s| - 1]) != '/' }

  predicate StartsPlain(s: string) { s != "" && LowerSlash(s[0]) != '/' }

  lemma TrimSame(s: string)
    ensures TrimRight(s) == s <==> s == "" || s[|s| - 1] != '/'
    ensures |TrimLeft(s)| <= |s|
    ensures TrimLeft(s) == s <==> s == "" || s[0] != '/'
    ensures |TrimLeft(s)| == |s| ==> TrimLeft(s) == s
  {
    TrimLeftShort(s);
    if s != "" && s[0] == '/' { TrimLeftShort(s[1..]); }
    if s != "" && s[|s| - 1] == '/' { assert |TrimRight(s)| < |s|; }
  }

  lemma {:induction false} TrimLeftShort(s: string)
    ensures |TrimLeft(s)| <= |s|
  {
    if s != "" && s[0] == '/' { TrimLeftShort(s[1..]); }
  }

  /** Both prefix columns of a row agree exactly when the directory columns are not empty, the
      name has no slash at either end and the parent none at its right end, and no letter in them
      is lower-cased by one side only. */
  lemma PrefixesAgree(lower: char -> char, parent: string, name: string)
    requires lower('/') == '/'
    ensures SnapshotPrefix(parent, name) == ArrayPrefix(lower, parent, name) <==>
      (EndsPlain(parent) && StartsPlain(name) && EndsPlain(name) && LowersAlike(lower, parent) && LowersAlike(lower, name))
  {
    var p, n := MatchPath(parent), MatchPath(name);
    TrimSame(p);
    TrimSame(n);
    TrimSame(TrimLeft(n));
    var plain := EndsPlain(parent) && StartsPlain(name) && EndsPlain(name);
    if plain {
      assert SnapshotPrefix(parent, name) == p + "/" + n + "/";
      SameColumns(lower, parent, name);
    } else {
      assert |SnapshotPrefix(parent, name)| < |parent| + |name| + 2;
    }
  }

  lemma PathsSame(lower: char -> char, s: string)
    ensures ArrayPath(lower, s) == MatchPath(s) <==> LowersAlike(lower, s)
  {
    hide Slash, LowerSlash;
    var a, m := ArrayPath(lower, s), MatchPath(s);
    if a == m {
      forall i | 0 <= i < |s| ensures lower(Slash(s[i])) == LowerSlash(s[i]) { assert a[i] == m[i]; }
    }
    if LowersAlike(lower, s) {
      forall i | 0 <= i < |s| ensures a[i] == m[i] { assert lower(Slash(s[i])) == LowerSlash(s[i]); }
    }
  }

  lemma ArrayPathJoins(lower: char -> char, a: string, b: string)
    ensures ArrayPath(lower, a + b) == ArrayPath(lower, a) + ArrayPath(lower, b)
  {
    hide Slash;
    var left, right := ArrayPath(lower, a + b), ArrayPath(lower, a) + ArrayPath(lower, b);
    assert forall i :: 0 <= i < |left| ==> left[i] == right[i];
  }

  lemma ArrayPrefixParts(lower: char -> char, parent: string, name: string)
    requires lower('/') == '/'
    ensures ArrayPrefix(lower, parent, name) == ArrayPath(lower, parent) + "/" + ArrayPath(lower, name) + "/"
  {
    assert ArrayPath(lower, "/") == "/";
    hide ArrayPath;
    ArrayPathJoins(lower, parent + "/" + name, "/");
    ArrayPathJoins(lower, parent + "/", name);
    ArrayPathJoins(lower, parent, "/");
  }

  lemma JoinsSame(a: string, b: string, c: string, d: string)
    requires |a| == |b| && |c| == |d|
    ensures a + "/" + c + "/" == b + "/" + d + "/" <==> a == b && c == d
  {
    var left, right := a + "/" + c + "/", b + "/" + d + "/";
    assert left[..|a|] == a && right[..|a|] == b;
    assert left[|a| + 1..][..|c|] == c && right[|a| + 1..][..|c|] == d;
  }

  lemma SameColumns(lower: char -> char, parent: string, name: string)
    requires lower('/') == '/'
    ensures MatchPath(parent) + "/" + MatchPath(name) + "/" == ArrayPrefix(lower, parent, name)
      <==> LowersAlike(lower, parent) && LowersAlike(lower, name)
  {
    hide LowersAlike, ArrayPrefix;
    PathsSame(lower, parent);
    PathsSame(lower, name);
    ArrayPrefixParts(lower, parent, name);
    JoinsSame(MatchPath(parent), ArrayPath(lower, parent), MatchPath(name), ArrayPath(lower, name));
  }

  // ---------- what attribution means ----------

  /** The first entity whose directory contains the path. */
  function FirstOwner(entities: seq<Entity>, path: string): (r: Option<nat>)
    ensures r.Some? ==> r.value < |entities| && entities[r.value].prefix <= path
    ensures r.Some? ==> forall i :: 0 <= i < r.value ==> !(entities[i].prefix <= path)
    ensures r.None? ==> forall i :: 0 <= i < |entities| ==> !(entities[i].prefix <= path)
  {
    if entities == [] then None
    else
      var n := |entities| - 1;
      var r := FirstOwner(entities[..n], path);
      if r.Some? then r else if entities[n].prefix <= path then Some(n) else None
  }

  /** Entities the snapshot keeps: those with a directory and a screen name. */
  function Kept(entities: seq<Entity>): seq<Entity> {
    if entities == [] then []
    else
      var e := entities[|entities| - 1];
      Kept(entities[..|entities| - 1]) + (if e.prefix != "" && e.screen != "" then [e] else [])
  }

  /** The entity among `entities` that owns the path, if any. */
  function OwnerIn(entities: seq<Entity>, path: string): Option<Entity> {
    match FirstOwner(entities, path)
    case Some(i) => Some(entities[i])
    case None => None
  }

  // ---------- the slash walk ----------

  function LastSlash(s: string): (i: int)
    ensures -1 <= i < |s|
    ensures i >= 0 ==> s[i] == '/'
    ensures forall k :: i < k < |s| ==> s[k] != '/'
  {
    if s == "" then -1 else if s[|s| - 1] == '/' then |s| - 1 else LastSlash(s[..|s| - 1])
  }

  /** `best` is the smallest index stored under a directory prefix of `path` longer than `from`. */
  ghost predicate BestAbove(index: map<string, nat>, path: string, from: int, best: Option<nat>) {
    && (best.Some? ==> exists n {:trigger HitAt(index, path, from, n)} :: HitAt(index, path, from, n) && index[path[..n]] == best.value)
    && (forall n {:trigger HitAt(index, path, from, n)} :: HitAt(index, path, from, n) ==>
          best.Some? && best.value <= index[path[..n]])
  }

  ghost predicate HitAt(index: map<string, nat>, path: string, from: int, n: int) {
    from < n <= |path| && n > 0 && path[n - 1] == '/' && path[..n] in index
  }

  /** The walk shared by matchUser and attributeLibraryUsers. */
  method Walk(index: map<string, nat>, path: string) returns (best: Option<nat>)
    ensures BestAbove(index, path, 0, best)
  {
    best := None;
    var slash := LastSlash(path);
    ghost var top := slash + 1;
    assert forall n {:trigger HitAt(index, path, top, n)} :: !HitAt(index, path, top, n);
    while slash >= 0
      invariant -1 <= slash < |path| && (slash >= 0 ==> path[slash] == '/')
      invariant BestAbove(index, path, slash + 1, best)
    {
      var prefix := path[..slash + 1];
      ghost var before := best;
      if prefix in index && (best.None? || index[prefix] < best.value) {
        best := Some(index[prefix]);
      }
      var next := LastSlash(path[..slash]);
      assert forall k :: next < k < slash ==> path[..slash][k] != '/';
      WidenBest(index, path, slash, next, before, best);
      slash := next;
    }
  }

  lemma WidenBest(index: map<string, nat>, path: string, slash: int, next: int, before: Option<nat>, best: Option<nat>)
    requires -1 <= next < slash < |path| && path[slash] == '/'
    requires forall k :: next < k < slash ==> path[k] != '/'
    requires BestAbove(index, path, slash + 1, before)
    requires best == if path[..slash + 1] in index && (before.None? || index[path[..slash + 1]] < before.value)
                     then Some(index[path[..slash + 1]]) else before
    ensures BestAbove(index, path, next + 1, best)
  {
    if best != before {
      assert HitAt(index, path, next + 1, slash + 1);
    } else if best.Some? {
      var n :| HitAt(index, path, slash + 1, n) && index[path[..n]] == best.value;
      assert HitAt(index, path, next + 1, n);
    }
    forall n | HitAt(index, path, next + 1, n) ensures best.Some? && best.value <= index[path[..n]] {
      if n > slash + 1 { assert HitAt(index, path, slash + 1, n); }
      assert n >= slash + 1;
    }
  }

  // ---------- prefix indices ----------

  /** Every prefix is indexed under the first entity that carries it. */
  ghost predicate IndexOk(index: map<string, nat>, entities: seq<Entity>) {
    && (forall k {:trigger index[k]} :: k in index ==> index[k] < |entities| && entities[index[k]].prefix == k)
    && (forall i {:trigger entities[i].prefix} :: 0 <= i < |entities| ==>
          entities[i].prefix in index && index[entities[i].prefix] <= i)
  }

  lemma WalkFindsFirst(index: map<string, nat>, entities: seq<Entity>, path: string, best: Option<nat>)
    requires IndexOk(index, entities) && BestAbove(index, path, 0, best)
    requires AllSlashed(entities)
    ensures best == FirstOwner(entities, path)
  {
    hide FirstOwner, IndexOk, Slashed;
    var first := FirstOwner(entities, path);
    if best.Some? {
      BestOwns(index, entities, path, best);
      assert first.Some? && first.value <= best.value;
    }
    if first.Some? {
      OwnerIsHit(index, entities, path, first.value);
      assert best.Some? && best.value <= index[path[..|entities[first.value].prefix|]];
    }
  }

  lemma BestOwns(index: map<string, nat>, entities: seq<Entity>, path: string, best: Option<nat>)
    requires IndexOk(index, entities) && BestAbove(index, path, 0, best) && best.Some?
    ensures best.value < |entities| && entities[best.value].prefix <= path
  {
    var n :| HitAt(index, path, 0, n) && index[path[..n]] == best.value;
    assert entities[best.value].prefix == path[..n];
  }

  lemma OwnerIsHit(index: map<string, nat>, entities: seq<Entity>, path: string, i: nat)
    requires IndexOk(index, entities) && i < |entities| && Slashed(entities[i].prefix) && entities[i].prefix <= path
    ensures HitAt(index, path, 0, |entities[i].prefix|) && index[path[..|entities[i].prefix|]] <= i
  {
    var p := entities[i].prefix;
    assert path[..|p|] == p;
  }

  /** attributeLibraryUsers, one path: all entities take part. */
  method ArrayOwner(lower: char -> char, rows: seq<Row>, path: string) returns (owner: Option<Entity>)
    requires lower('/') == '/'
    ensures owner == OwnerIn(ArrayTable(lower, rows), ArrayPath(lower, path))
  {
    var index: map<string, nat> := map[];
    ghost var table := ArrayTable(lower, rows);
    for i := 0 to |rows|
      invariant IndexOk(index, table[..i])
    {
      ghost var before := index;
      var prefix := ArrayPrefix(lower, rows[i].parent, rows[i].name);
      assert prefix == table[i].prefix;
      if prefix !in index {
        index := index[prefix := i];
      }
      ExtendIndex(before, table, i);
    }
    assert table[..|rows|] == table;
    var best := Walk(index, ArrayPath(lower, path));
    WalkFindsFirst(index, table, ArrayPath(lower, path), best);
    owner := if best.Some? then Some(ArrayEntity(lower, rows[best.value])) else None;
  }

  lemma ExtendIndex(index: map<string, nat>, entities: seq<Entity>, i: nat)
    requires i < |entities| && IndexOk(index, entities[..i])
    ensures IndexOk(if entities[i].prefix in index then index else index[entities[i].prefix := i], entities[..i + 1])
  {
    var a, b := entities[..i], entities[..i + 1];
    assert forall k :: 0 <= k < i ==> a[k] == b[k];
    forall k | 0 <= k < |b| ensures k < i ==> b[k].prefix in index && index[b[k].prefix] <= k {
      if k < i { assert a[k].prefix in index; }
    }
  }

  /** What the snapshot stores: the kept entities without repeated prefixes, and their index. */
  ghost predicate SnapshotOk(prefixes: seq<Entity>, index: map<string, nat>, entities: seq<Entity>) {
    IndexOk(index, prefixes) && AllSlashed(prefixes) && SameOwners(prefixes, Kept(entities))
  }

  /** The index construction of buildLibrarySnapshot. */
  method BuildSnapshot(rows: seq<Row>) returns (prefixes: seq<Entity>, index: map<string, nat>)
    ensures SnapshotOk(prefixes, index, SnapTable(rows))
  {
    prefixes, index := [], map[];
    ghost var table := SnapTable(rows);
    assert SnapshotOk(prefixes, index, []) && |table| == |rows|;
    hide SnapshotOk, SnapTable;
    for n := 0 to |rows|
      invariant SnapshotOk(prefixes, index, table[..n])
    {
      var e := SnapEntity(rows[n]);
      TableStep(rows, n);
      KeepOne(prefixes, index, table[..n], e);
      if e.prefix != "" && e.screen != "" && e.prefix !in index {
        index := index[e.prefix := |prefixes|];
        prefixes := prefixes + [e];
      }
    }
    assert table[..|rows|] == table;
  }

  lemma TableStep(rows: seq<Row>, n: nat)
    requires n < |rows|
    ensures SnapTable(rows)[..n + 1] == SnapTable(rows)[..n] + [SnapEntity(rows[n])]
  {
    hide SnapEntity;
  }

  lemma OwnerOfAppend(es: seq<Entity>, e: Entity, path: string)
    ensures OwnerIn(es + [e], path) ==
      if OwnerIn(es, path).Some? then OwnerIn(es, path) else if e.prefix <= path then Some(e) else None
  {
    assert (es + [e])[..|es|] == es;
  }

  ghost predicate SameOwners(prefixes: seq<Entity>, entities: seq<Entity>) {
    forall path: string {:trigger OwnerIn(prefixes, path)} :: OwnerIn(prefixes, path) == OwnerIn(entities, path)
  }

  lemma SameOwnersStep(prefixes: seq<Entity>, index: map<string, nat>, entities: seq<Entity>, e: Entity)
    requires IndexOk(index, prefixes) && SameOwners(prefixes, entities)
    ensures SameOwners(if e.prefix in index then prefixes else prefixes + [e], entities + [e])
  {
    hide IndexOk;
    var more := if e.prefix in index then prefixes else prefixes + [e];
    forall path: string ensures OwnerIn(more, path) == OwnerIn(entities + [e], path) {
      OwnerOfAppend(prefixes, e, path);
      OwnerOfAppend(entities, e, path);
      assert OwnerIn(prefixes, path) == OwnerIn(entities, path);
      if e.prefix in index && e.prefix <= path { IndexedOwner(prefixes, index, e.prefix, path); }
    }
  }

  lemma IndexedOwner(prefixes: seq<Entity>, index: map<string, nat>, prefix: string, path: string)
    requires IndexOk(index, prefixes) && prefix in index && prefix <= path
    ensures OwnerIn(prefixes, path).Some?
  {
    assert prefixes[index[prefix]].prefix <= path;
  }

  /** One more row: an entity without a directory or a screen name is skipped, and so is a
      repeated prefix. */
  lemma KeepOne(prefixes: seq<Entity>, index: map<string, nat>, entities: seq<Entity>, e: Entity)
    requires SnapshotOk(prefixes, index, entities) && (e.prefix == "" || Slashed(e.prefix))
    ensures
      if e.prefix != "" && e.screen != "" && e.prefix !in index
      then SnapshotOk(prefixes + [e], index[e.prefix := |prefixes|], entities + [e])
      else SnapshotOk(prefixes, index, entities + [e])
  {
    hide IndexOk, OwnerIn, Kept, Slashed;
    KeptOfAppend(entities, e);
    if e.prefix != "" && e.screen != "" {
      SameOwnersStep(prefixes, index, Kept(entities), e);
      if e.prefix !in index {
        var more := prefixes + [e];
        assert more[..|prefixes|] == prefixes && more[..|prefixes| + 1] == more;
        ExtendIndex(index, more, |prefixes|);
      }
    }
  }

  /** matchUser on a freshly built snapshot returns the same owner as the plain scan over the
      entities that carry a screen name. */
  method SnapshotOwner(rows: seq<Row>, path: string) returns (owner: Option<Entity>)
    ensures owner == OwnerIn(Kept(SnapTable(rows)), MatchPath(path))
  {
    var prefixes, index := BuildSnapshot(rows);
    var best := Walk(index, MatchPath(path));
    WalkFindsFirst(index, prefixes, MatchPath(path), best);
    assert OwnerIn(prefixes, MatchPath(path)) == OwnerIn(Kept(SnapTable(rows)), MatchPath(path));
    owner := if best.Some? then Some(prefixes[best.value]) else None;
  }

  // ---------- when the two versions agree ----------

  /** The screen name and the user name shown for a file. */
  function Shown(owner: Option<Entity>): (string, string) {
    if owner.Some? then (owner.value.screen, owner.value.name) else ("", "")
  }

  function ArrayShown(lower: char -> char, rows: seq<Row>, path: string): (string, string)
    requires lower('/') == '/'
  {
    Shown(OwnerIn(ArrayTable(lower, rows), ArrayPath(lower, path)))
  }

  function SnapShown(rows: seq<Row>, path: string): (string, string) {
    Shown(OwnerIn(Kept(SnapTable(rows)), MatchPath(path)))
  }

  /** The rows whose directory contains the file, by the array's normalisation. */
  ghost function ArrayDirs(lower: char -> char, rows: seq<Row>, path: string): set<nat>
    requires lower('/') == '/'
  {
    set i: nat | i < |rows| && ArrayPrefix(lower, rows[i].parent, rows[i].name) <= ArrayPath(lower, path)
  }

  /** The rows with a screen name whose directory contains the file, by the snapshot's. */
  ghost function NamedDirs(rows: seq<Row>, path: string): set<nat> {
    set i: nat | i < |rows| && Named(rows[i]) && SnapshotPrefix(rows[i].parent, rows[i].name) <= MatchPath(path)
  }

  predicate Named(row: Row) { row.screen != "" && SnapshotPrefix(row.parent, row.name) != "" }

  ghost predicate Lowest(at: Option<nat>, dirs: set<nat>) {
    if at.Some? then at.value in dirs && forall i :: i in dirs ==> at.value <= i else dirs == {}
  }

  function NamesAt(rows: seq<Row>, at: Option<nat>): (string, string)
    requires at.Some? ==> at.value < |rows|
  {
    if at.Some? then (rows[at.value].screen, rows[at.value].user) else ("", "")
  }

  lemma ArrayShowsLowest(lower: char -> char, rows: seq<Row>, path: string, a: Option<nat>)
    requires lower('/') == '/' && Lowest(a, ArrayDirs(lower, rows, path))
    ensures ArrayShown(lower, rows, path) == NamesAt(rows, a)
  {
    hide ArrayPath, FirstOwner;
    var table := ArrayTable(lower, rows);
    var first := FirstOwner(table, ArrayPath(lower, path));
    var dirs := ArrayDirs(lower, rows, path);
    if first.Some? {
      assert table[first.value].prefix <= ArrayPath(lower, path);
      assert first.value in dirs;
    }
    if a.Some? { assert table[a.value].prefix <= ArrayPath(lower, path); }
  }

  ghost predicate OwnsNamed(es: seq<Entity>, path: string, i: int) {
    0 <= i < |es| && es[i].prefix != "" && es[i].screen != "" && es[i].prefix <= path
  }

  ghost predicate NoneBefore(es: seq<Entity>, path: string, n: int) {
    forall k {:trigger OwnsNamed(es, path, k)} :: 0 <= k < n ==> !OwnsNamed(es, path, k)
  }

  /** The owner is the entity at `at`, the first named one whose directory contains the path. */
  ghost predicate FirstNamed(es: seq<Entity>, path: string, owner: Option<Entity>, at: int) {
    && 0 <= at <= |es| && NoneBefore(es, path, at)
    && if at < |es| then OwnsNamed(es, path, at) && owner == Some(es[at]) else owner == None
  }

  lemma FirstNamedStep(head: seq<Entity>, e: Entity, path: string, owner: Option<Entity>, at: int)
    requires FirstNamed(head, path, owner, at)
    ensures at < |head| ==> FirstNamed(head + [e], path, owner, at)
    ensures at == |head| && OwnsNamed([e], path, 0) ==> FirstNamed(head + [e], path, Some(e), at)
    ensures at == |head| && !OwnsNamed([e], path, 0) ==> FirstNamed(head + [e], path, None, at + 1)
  {
    var es := head + [e];
    forall k | 0 <= k < |head| ensures OwnsNamed(es, path, k) == OwnsNamed(head, path, k) {
      assert es[k] == head[k];
    }
    assert es[|head|] == e == [e][0];
  }

  /** Only the named rows of a table can be the snapshot's owner. */
  lemma {:induction false} KeptOwner(es: seq<Entity>, path: string) returns (at: int)
    ensures FirstNamed(es, path, OwnerIn(Kept(es), path), at)
  {
    if es == [] {
      at := 0;
    } else {
      hide FirstNamed, OwnerIn, Kept;
      var head, e := es[..|es| - 1], es[|es| - 1];
      assert es == head + [e];
      at := KeptOwner(head, path);
      FirstNamedStep(head, e, path, OwnerIn(Kept(head), path), at);
      AtOrNone(head, path, OwnerIn(Kept(head), path), at);
      KeptOfAppend(head, e);
      OwnerOfAppend(Kept(head), e, path);
      if at == |head| && !OwnsNamed([e], path, 0) { at := at + 1; }
    }
  }

  lemma AtOrNone(es: seq<Entity>, path: string, owner: Option<Entity>, at: int)
    requires FirstNamed(es, path, owner, at)
    ensures 0 <= at <= |es| && (at < |es| <==> owner.Some?)
  {
  }

  lemma SnapShowsLowest(rows: seq<Row>, path: string, s: Option<nat>)
    requires Lowest(s, NamedDirs(rows, path))
    ensures SnapShown(rows, path) == NamesAt(rows, s)
  {
    hide MatchPath, OwnerIn, Kept, SnapshotPrefix;
    var table, dirs := SnapTable(rows), NamedDirs(rows, path);
    var at := KeptOwner(table, MatchPath(path));
    forall i: nat ensures OwnsNamed(table, MatchPath(path), i) <==> i in dirs { }
    if s.Some? { assert OwnsNamed(table, MatchPath(path), s.value); }
    if at < |table| { assert at in dirs; }
  }

  /** The source says the two versions have the same meaning.  They show the same user exactly
      when the lowest row that contains the file for the array and the lowest named row that
      contains it for the snapshot carry the same names, or neither exists, or the array's alone
      exists and names nobody. */
  lemma VersionsAgree(lower: char -> char, rows: seq<Row>, path: string, a: Option<nat>, s: Option<nat>)
    requires lower('/') == '/'
    requires Lowest(a, ArrayDirs(lower, rows, path)) && Lowest(s, NamedDirs(rows, path))
    ensures ArrayShown(lower, rows, path) == SnapShown(rows, path) <==>
      match s
      case Some(named) => a.Some? && rows[a.value].screen == rows[named].screen && rows[a.value].user == rows[named].user
      case None => a.Some? ==> rows[a.value].screen == rows[a.value].user == ""
  {
    hide ArrayShown, SnapShown;
    ArrayShowsLowest(lower, rows, path, a);
    SnapShowsLowest(rows, path, s);
  }

  /** A row both versions read alike: it has a screen name and its prefix columns agree. */
  ghost predicate Plain(lower: char -> char, row: Row) {
    && row.screen != ""
    && EndsPlain(row.parent) && StartsPlain(row.name) && EndsPlain(row.name)
    && LowersAlike(lower, row.parent) && LowersAlike(lower, row.name)
  }

  /** On tables of plain rows the versions show the same user for every path that both
      lower-case alike. */
  lemma PlainTablesAgree(lower: char -> char, rows: seq<Row>, path: string)
    requires lower('/') == '/' && LowersAlike(lower, path)
    requires forall i :: 0 <= i < |rows| ==> Plain(lower, rows[i])
    ensures ArrayShown(lower, rows, path) == SnapShown(rows, path)
  {
    hide ArrayShown, SnapShown, ArrayPrefix, SnapshotPrefix;
    assert ArrayPath(lower, path) == MatchPath(path);
    forall i: nat | i < |rows|
      ensures i in ArrayDirs(lower, rows, path) <==> i in NamedDirs(rows, path)
    {
      PrefixesAgree(lower, rows[i].parent, rows[i].name);
    }
    assert ArrayDirs(lower, rows, path) == NamedDirs(rows, path);
    var a := LowestOf(NamedDirs(rows, path), |rows|);
    ArrayShowsLowest(lower, rows, path, a);
    SnapShowsLowest(rows, path, a);
  }

  ghost function LowestOf(dirs: set<nat>, n: nat): (at: Option<nat>)
    requires forall i :: i in dirs ==> i < n
    ensures Lowest(at, dirs)
  {
    if dirs == {} then None
    else if forall i :: i in dirs ==> i < n - 1 then LowestOf(dirs, n - 1)
    else
      var rest := LowestOf(dirs - {n - 1}, n - 1);
      assert n - 1 in dirs && forall i :: i in dirs ==> i == n - 1 || i in dirs - {n - 1};
      if rest.Some? then rest else Some(n - 1)
  }

  lemma KeptOfAppend(es: seq<Entity>, e: Entity)
    ensures Kept(es + [e]) == if e.prefix != "" && e.screen != "" then Kept(es) + [e] else Kept(es)
  {
    assert (es + [e])[..|es|] == es;
  }

  lemma MatchPathJoins(a: string, b: string)
    ensures MatchPath(a + b) == MatchPath(a) + MatchPath(b)
  {
    hide LowerSlash;
    var left, right := MatchPath(a + b), MatchPath(a) + MatchPath(b);
    assert forall i :: 0 <= i < |left| ==> left[i] == right[i];
  }

  lemma MatchDirectory(parent: string, name: string)
    ensures MatchPath(parent + "/" + name + "/") == MatchPath(parent) + "/" + MatchPath(name) + "/"
  {
    assert MatchPath("/") == "/";
    hide MatchPath;
    MatchPathJoins(parent + "/" + name, "/");
    MatchPathJoins(parent + "/", name);
    MatchPathJoins(parent, "/");
  }

  lemma PlainPrefix(parent: string, name: string)
    requires EndsPlain(parent) && StartsPlain(name) && EndsPlain(name)
    ensures SnapshotPrefix(parent, name) == MatchPath(parent) + "/" + MatchPath(name) + "/"
  {
    TrimSame(MatchPath(parent));
    TrimSame(MatchPath(name));
  }

  /** A file in a directory is in it for both versions. */
  lemma FileInDirectory(lower: char -> char, parent: string, name: string, rest: string)
    requires lower('/') == '/' && EndsPlain(parent) && StartsPlain(name) && EndsPlain(name)
    ensures ArrayPrefix(lower, parent, name) <= ArrayPath(lower, parent + "/" + name + "/" + rest)
    ensures SnapshotPrefix(parent, name) <= MatchPath(parent + "/" + name + "/" + rest) && SnapshotPrefix(parent, name) != ""
  {
    hide ArrayPath, MatchPath, SnapshotPrefix;
    ArrayPathJoins(lower, parent + "/" + name + "/", rest);
    MatchPathJoins(parent + "/" + name + "/", rest);
    MatchDirectory(parent, name);
    PlainPrefix(parent, name);
  }

  /** A user without a screen name, listed first, hides a named one of the same directory in the
      array listing only. */
  lemma VersionsDiffer(lower: char -> char, nameless: Row, named: Row, rest: string)
    requires lower('/') == '/' && nameless.screen == "" && named.screen != ""
    requires nameless.parent == named.parent && nameless.name == named.name
    requires EndsPlain(named.parent) && StartsPlain(named.name) && EndsPlain(named.name)
    ensures
      var rows, path := [nameless, named], named.parent + "/" + named.name + "/" + rest;
      ArrayShown(lower, rows, path) == ("", nameless.user) && SnapShown(rows, path) == (named.screen, named.user)
  {
    hide ArrayShown, SnapShown, ArrayPrefix, SnapshotPrefix, MatchPath, ArrayPath;
    var rows, path := [nameless, named], named.parent + "/" + named.name + "/" + rest;
    FileInDirectory(lower, named.parent, named.name, rest);
    ArrayShowsLowest(lower, rows, path, Some(0));
    SnapShowsLowest(rows, path, Some(1));
  }

  /** A letter that only Unicode lower-casing knows: the array listing finds the owner of a file
      whose path differs from the directory in case, and the snapshot finds nobody. */
  lemma CaseDiffers(lower: char -> char, rest: string)
    requires lower('/') == '/' && lower('u') == 'u' && lower('\U{C9}') == '\U{E9}' == lower('\U{E9}')
    ensures
      var rows, path := [Row("/u", "\U{C9}", "bob", "Bob")], "/u/\U{E9}/" + rest;
      ArrayShown(lower, rows, path) == ("bob", "Bob") && SnapShown(rows, path) == ("", "")
  {
    hide ArrayShown, SnapShown, ArrayPrefix, SnapshotPrefix, MatchPath, ArrayPath;
    var rows, path := [Row("/u", "\U{C9}", "bob", "Bob")], "/u/\U{E9}/" + rest;
    CasePrefixes(lower, rest);
    ArrayShowsLowest(lower, rows, path, Some(0));
    SnapShowsLowest(rows, path, None);
  }

  lemma CasePrefixes(lower: char -> char, rest: string)
    requires lower('/') == '/' && lower('u') == 'u' && lower('\U{C9}') == '\U{E9}' == lower('\U{E9}')
    ensures ArrayPrefix(lower, "/u", "\U{C9}") <= ArrayPath(lower, "/u/\U{E9}/" + rest)
    ensures !(SnapshotPrefix("/u", "\U{C9}") <= MatchPath("/u/\U{E9}/" + rest))
  {
    ArrayPathJoins(lower, "/u/\U{E9}/", rest);
    assert ArrayPath(lower, "/u/\U{E9}/") == "/u/\U{E9}/" == ArrayPrefix(lower, "/u", "\U{C9}");
    AccentPrefix();
    assert MatchPath("/u/\U{E9}/" + rest)[3] == '\U{E9}';
  }

  lemma AccentPrefix()
    ensures SnapshotPrefix("/u", "\U{C9}") == "/u/\U{C9}/"
  {
    TrimSame("/u");
    TrimSame("\U{C9}");
    assert MatchPath("/u") == "/u" && MatchPath("\U{C9}") == "\U{C9}";
  }
}
