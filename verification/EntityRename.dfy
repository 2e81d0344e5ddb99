/** Renaming a directory and the paths recorded under it, with faults. */
module EntityRename {

  datatype Fault =
    | Clean
    | CrashFirst
    | StatFails
    | MoveFails
    | CrashAfterMove
    | RewriteFails
    | RewriteAndRollbackFail
    | UpsertFails
    | MkdirFails

  /** The parent directory, the entity directories in it, all files and records by path, and the stored name. */
  datatype State = State(parent: string, dirs: set<string>, files: map<string, string>, recs: map<nat, string>, name: string)

  datatype Renamed = Done | SourceMissing | TargetExists | OtherError

  // ---------- paths ----------

  function Prefix(parent: string, name: string): string { parent + "/" + name + "/" }

  predicate Under(p: string, prefix: string) { prefix <= p }

  function Moved(p: string, from: string, to: string): string {
    if Under(p, from) then to + p[|from|..] else p
  }

  /** Two names whose directories do not contain each other. */
  predicate Apart(from: string, to: string) { !(from <= to) && !(to <= from) }

  predicate NoSlash(name: string) { forall i :: 0 <= i < |name| ==> name[i] != '/' }

  /** Different names without a slash, in one parent, are apart. */
  lemma SiblingsApart(parent: string, a: string, b: string)
    requires NoSlash(a) && NoSlash(b) && a != b
    ensures Apart(Prefix(parent, a), Prefix(parent, b))
  {
    if Prefix(parent, a) <= Prefix(parent, b) { NestedSame(parent, a, b); }
    if Prefix(parent, b) <= Prefix(parent, a) { NestedSame(parent, b, a); }
    hide Prefix, NoSlash;
  }

  lemma NestedSame(parent: string, a: string, b: string)
    requires NoSlash(a) && NoSlash(b) && Prefix(parent, a) <= Prefix(parent, b)
    ensures a == b
  {
    var p, q, n := Prefix(parent, a), Prefix(parent, b), |parent| + 1;
    assert p[n + |a|] == '/' && q[n + |a|] == p[n + |a|];
    assert a == p[n..n + |a|] && b == q[n..n + |b|];
    assert forall i :: 0 <= i < |b| ==> q[n + i] == b[i];
    assert |a| == |b|;
  }

  lemma Comparable(p: string, a: string, b: string)
    requires a <= p && b <= p
    ensures a <= b || b <= a
  {
  }

  lemma ApartPath(p: string, from: string, to: string)
    requires Apart(from, to)
    ensures !(Under(p, from) && Under(p, to))
  {
    if Under(p, from) && Under(p, to) { Comparable(p, from, to); }
  }

  lemma MoveThereAndBack(p: string, from: string, to: string)
    requires Apart(from, to) && !Under(p, to)
    ensures Moved(Moved(p, from, to), to, from) == p
    ensures Under(Moved(p, from, to), to) <==> Under(p, from)
    ensures !Under(Moved(p, from, to), from)
  {
    if Under(p, from) {
      assert p == from + p[|from|..];
      ApartPath(to + p[|from|..], from, to);
    }
  }

  // ---------- the tree and the table ----------

  ghost predicate NoneUnder(files: map<string, string>, prefix: string) { forall p :: p in files ==> !Under(p, prefix) }

  function MovedFiles(files: map<string, string>, from: string, to: string): map<string, string> {
    map q | q in (set p | p in files :: Moved(p, from, to)) && Moved(q, to, from) in files :: files[Moved(q, to, from)]
  }

  function Rewritten(recs: map<nat, string>, from: string, to: string): map<nat, string> {
    map r | r in recs :: Moved(recs[r], from, to)
  }

  lemma FileMoved(files: map<string, string>, from: string, to: string, p: string)
    requires Apart(from, to) && NoneUnder(files, to) && p in files
    ensures Moved(p, from, to) in MovedFiles(files, from, to)
    ensures MovedFiles(files, from, to)[Moved(p, from, to)] == files[p]
  {
    MoveThereAndBack(p, from, to);
  }

  lemma MovedFrom(files: map<string, string>, from: string, to: string, q: string) returns (p: string)
    requires Apart(from, to) && NoneUnder(files, to) && q in MovedFiles(files, from, to)
    ensures p in files && q == Moved(p, from, to) && p == Moved(q, to, from) && !Under(q, from)
  {
    p :| p in files && q == Moved(p, from, to);
    MoveThereAndBack(p, from, to);
  }

  lemma BackHas(files: map<string, string>, from: string, to: string, p: string)
    requires Apart(from, to) && NoneUnder(files, to) && NoneUnder(MovedFiles(files, from, to), from) && p in files
    ensures var back := MovedFiles(MovedFiles(files, from, to), to, from); p in back && back[p] == files[p]
  {
    FileMoved(files, from, to, p);
    MoveThereAndBack(p, from, to);
    FileMoved(MovedFiles(files, from, to), to, from, Moved(p, from, to));
    hide MovedFiles, Apart, NoneUnder, Under, Moved;
  }

  lemma BackOnly(files: map<string, string>, from: string, to: string, p: string)
    requires Apart(from, to) && NoneUnder(files, to) && NoneUnder(MovedFiles(files, from, to), from)
    requires p in MovedFiles(MovedFiles(files, from, to), to, from)
    ensures p in files
  {
    hide NoneUnder;
    var q := MovedFrom(MovedFiles(files, from, to), to, from, p);
    var o := MovedFrom(files, from, to, q);
    hide MovedFiles, Apart, Under, Moved;
  }

  lemma SourceEmptied(files: map<string, string>, from: string, to: string)
    requires Apart(from, to) && NoneUnder(files, to)
    ensures NoneUnder(MovedFiles(files, from, to), from)
  {
    forall q | q in MovedFiles(files, from, to) ensures !Under(q, from) { var p := MovedFrom(files, from, to, q); }
  }

  /** Moving back restores the tree. */
  lemma FilesThereAndBack(files: map<string, string>, from: string, to: string)
    requires Apart(from, to) && NoneUnder(files, to)
    ensures MovedFiles(MovedFiles(files, from, to), to, from) == files
  {
    SourceEmptied(files, from, to);
    hide Apart, NoneUnder, Under, Moved, MovedFiles;
    var back := MovedFiles(MovedFiles(files, from, to), to, from);
    forall p | p in files ensures SameAt(back, files, p) { BackHas(files, from, to, p); }
    forall p | p in back ensures SameAt(back, files, p) { BackOnly(files, from, to, p); BackHas(files, from, to, p); }
    SameMaps(back, files);
  }

  predicate SameAt(a: map<string, string>, b: map<string, string>, p: string) { p in a && p in b && a[p] == b[p] }

  lemma SameMaps(a: map<string, string>, b: map<string, string>)
    requires forall p {:trigger SameAt(a, b, p)} :: p in a || p in b ==> SameAt(a, b, p)
    ensures a == b
  {
    assert forall p :: p in a ==> SameAt(a, b, p);
    assert forall p :: p in b ==> SameAt(a, b, p);
  }

  // ---------- one attempt ----------

  function Old(s: State): string { Prefix(s.parent, s.name) }

  function MovedTree(s: State, from: string, to: string): State {
    s.(dirs := s.dirs - {from} + {to}, files := MovedFiles(s.files, Prefix(s.parent, from), Prefix(s.parent, to)))
  }

  function RewrittenTable(s: State, from: string, to: string): State {
    s.(recs := Rewritten(s.recs, Prefix(s.parent, from), Prefix(s.parent, to)))
  }

  function Ensured(s: State, name: string, f: Fault): State {
    if f == UpsertFails then s
    else if f == MkdirFails then s.(name := name)
    else s.(name := name, dirs := s.dirs + {name})
  }

  function Attempt(s: State, to: string, f: Fault): State {
    var from := s.name;
    if from == to || from == "" then (if f == CrashFirst then s else Ensured(s, to, f))
    else match f
      case CrashFirst => s
      case StatFails => Ensured(s, from, f)
      case _ =>
        if from !in s.dirs then
          (if f == CrashAfterMove || f == RewriteFails || f == RewriteAndRollbackFail then s
           else Ensured(RewrittenTable(s, from, to), to, f))
        else if to in s.dirs || f == MoveFails then Ensured(s, from, f)
        else
          var moved := MovedTree(s, from, to);
          match f
          case CrashAfterMove => moved
          case RewriteAndRollbackFail => moved
          case RewriteFails => MovedTree(moved, to, from)
          case _ => Ensured(RewrittenTable(moved, from, to), to, f)
  }

  /** The attempt gets to its end: no fault that stops it, and none between the move and the rewrite unless the
      directory stays where it is. */
  predicate Completes(s: State, to: string, f: Fault) {
    && f != CrashFirst && f != UpsertFails && f != MkdirFails
    && (f == CrashAfterMove || f == RewriteFails || f == RewriteAndRollbackFail ==>
          s.name == "" || s.name == to || (s.name in s.dirs && to in s.dirs))
  }

  class Entity {
    var s: State

    constructor (s: State)
      ensures this.s == s
    {
      this.s := s;
    }

    /** filestore.Rename: never overwrites, and tells a missing source from a taken target. */
    method Rename(from: string, to: string, statFails: bool, moveFails: bool) returns (r: Renamed)
      modifies this
      ensures r == if statFails then OtherError else if from !in old(s).dirs then SourceMissing
                   else if to in old(s).dirs then TargetExists else if moveFails then OtherError else Done
      ensures s == if r == Done then MovedTree(old(s), from, to) else old(s)
    {
      if statFails { return OtherError; }
      if from !in s.dirs { return SourceMissing; }
      if to in s.dirs { return TargetExists; }
      if moveFails { return OtherError; }
      s := MovedTree(s, from, to);
      return Done;
    }

    method RewriteDownloadPathPrefix(from: string, to: string, fails: bool) returns (ok: bool)
      modifies this
      ensures ok == !fails && s == if fails then old(s) else RewrittenTable(old(s), from, to)
    {
      if fails { return false; }
      s := RewrittenTable(s, from, to);
      return true;
    }

    method RenameEntityDir(from: string, to: string, f: Fault) returns (name: string, ok: bool)
      requires from == s.name && from != to && from != "" && f != CrashFirst
      modifies this
      ensures ok ==> Attempt(old(s), to, f) == Ensured(s, name, f) && (name == from || name == to)
      ensures !ok ==> Attempt(old(s), to, f) == s
      ensures f != UpsertFails && f != MkdirFails ==> (ok <==> Completes(old(s), to, f))
      ensures f == UpsertFails || f == MkdirFails ==> ok
    {
      hide MovedTree, RewrittenTable;
      var rewriteFails := f == CrashAfterMove || f == RewriteFails || f == RewriteAndRollbackFail;
      var renamed := Rename(from, to, f == StatFails, f == MoveFails);
      match renamed {
        case SourceMissing =>
          var done := RewriteDownloadPathPrefix(from, to, rewriteFails);
          return to, done;
        case TargetExists => return from, true;
        case OtherError => return from, true;
        case Done =>
          if f == CrashAfterMove { return "", false; }
          var done := RewriteDownloadPathPrefix(from, to, rewriteFails);
          if !done {
            if f == RewriteFails { s := MovedTree(s, to, from); }
            return "", false;
          }
          return to, true;
      }
    }

    method EnsureUserEntity(to: string, f: Fault) returns (ok: bool)
      modifies this
      ensures s == Attempt(old(s), to, f)
      ensures ok <==> Completes(old(s), to, f)
      ensures ok ==> s.name in s.dirs && (s.name == to || s.name == old(s).name)
    {
      hide MovedTree, RewrittenTable;
      if f == CrashFirst { return false; }
      var name := to;
      if s.name != "" && s.name != to {
        var renamed, done := RenameEntityDir(s.name, to, f);
        if !done { return false; }
        name := renamed;
      }
      if f == UpsertFails { return false; }
      s := s.(name := name);
      if f == MkdirFails { return false; }
      s := s.(dirs := s.dirs + {name});
      return true;
    }
  }

  // ---------- recovery ----------

  /** The start: the entity's directory is there, and a directory that is not there holds no files. */
  ghost predicate Settled(s: State, to: string) {
    && s.name != to && s.name != "" && NoSlash(s.name) && NoSlash(to) && s.name in s.dirs
    && (to !in s.dirs ==> NoneUnder(s.files, Prefix(s.parent, to)))
  }

  function Attempts(s: State, to: string, fs: seq<Fault>): State {
    if fs == [] then s else Attempt(Attempts(s, to, fs[..|fs| - 1]), to, fs[|fs| - 1])
  }

  predicate SameRecord(a: State, b: State, r: nat) {
    r in a.recs && a.recs[r] in a.files ==> r in b.recs && b.recs[r] in b.files && b.files[b.recs[r]] == a.files[a.recs[r]]
  }

  predicate SameFile(a: State, b: State, name: string, p: string) {
    p in a.files ==>
      (var q := Moved(p, Old(a), Prefix(a.parent, name)); q in b.files && b.files[q] == a.files[p])
  }

  /** Every record of an existing file names a file with that content, and the entity's name is the directory of its files. */
  ghost predicate Restored(a: State, b: State, to: string) {
    var name := if to in a.dirs then a.name else to;
    && b.name == name && name in b.dirs
    && (forall r {:trigger SameRecord(a, b, r)} :: SameRecord(a, b, r))
    && (forall p {:trigger SameFile(a, b, name, p)} :: SameFile(a, b, name, p))
  }

  /** Both directories exist although only the old one did at the start. */
  predicate Stranded(a: State, b: State, to: string) { to !in a.dirs && a.name in b.dirs && to in b.dirs }

  function Both(a: State, to: string): State { RewrittenTable(MovedTree(a, a.name, to), a.name, to) }

  /** All the states that faulty attempts can leave behind. */
  predicate Phase(a: State, b: State, to: string) {
    || b == a
    || (to !in a.dirs && (b == MovedTree(a, a.name, to) || b == Both(a, to) || b == Both(a, to).(name := to)))
    || (Stranded(a, b, to) && b.name == a.name)
  }

  lemma TwiceRewritten(recs: map<nat, string>, from: string, to: string)
    requires Apart(from, to)
    ensures Rewritten(Rewritten(recs, from, to), from, to) == Rewritten(recs, from, to)
  {
    forall r | r in recs ensures Moved(Moved(recs[r], from, to), from, to) == Moved(recs[r], from, to) {
      ApartPath(Moved(recs[r], from, to), from, to);
    }
  }

  /** What the moves and the rewrite amount to, tree and table apart. */
  lemma MoveFacts(a: State, to: string)
    requires Settled(a, to) && to !in a.dirs
    ensures var m := MovedTree(a, a.name, to);
      && MovedTree(m, to, a.name) == a && RewrittenTable(m, a.name, to) == Both(a, to)
      && RewrittenTable(Both(a, to), a.name, to) == Both(a, to)
      && m.name == a.name && a.name !in m.dirs && to in m.dirs
      && Both(a, to).name == a.name && Both(a, to).dirs == m.dirs
  {
    SiblingsApart(a.parent, a.name, to);
    TwiceRewritten(a.recs, Old(a), Prefix(a.parent, to));
    FilesThereAndBack(a.files, Old(a), Prefix(a.parent, to));
    assert a.dirs - {a.name} + {to} - {to} + {a.name} == a.dirs;
    hide MovedFiles, Rewritten, Prefix, Apart, NoSlash, NoneUnder;
  }

  lemma Basics(a: State, to: string)
    requires Settled(a, to)
    ensures a.name != to && a.name != "" && a.name in a.dirs && a.dirs + {a.name} == a.dirs
    ensures to !in a.dirs ==> Both(a, to).dirs + {to} == Both(a, to).dirs
  {
    hide NoneUnder, MovedFiles, Rewritten;
  }

  lemma AttemptFromStart(a: State, to: string, f: Fault)
    requires Settled(a, to)
    ensures Phase(a, Attempt(a, to, f), to) && !Stranded(a, Attempt(a, to, f), to)
  {
    hide MovedTree, RewrittenTable, Both, Settled;
    Basics(a, to);
    if to !in a.dirs { MoveFacts(a, to); }
  }

  lemma AttemptFromMoved(a: State, b: State, to: string, f: Fault)
    requires Settled(a, to) && to !in a.dirs && (b == MovedTree(a, a.name, to) || b == Both(a, to))
    ensures Phase(a, Attempt(b, to, f), to)
    ensures f != StatFails ==> !Stranded(a, Attempt(b, to, f), to)
  {
    hide MovedTree, RewrittenTable, Both, Settled;
    Basics(a, to);
    MoveFacts(a, to);
  }

  lemma AttemptFromDone(a: State, b: State, to: string, f: Fault)
    requires Settled(a, to) && to !in a.dirs && b == Both(a, to).(name := to)
    ensures Attempt(b, to, f) == b && !Stranded(a, b, to)
  {
    hide MovedTree, RewrittenTable, Both, Settled;
    Basics(a, to);
    MoveFacts(a, to);
  }

  lemma AttemptFromStranded(a: State, b: State, to: string, f: Fault)
    requires Settled(a, to) && Stranded(a, b, to) && b.name == a.name
    ensures Stranded(a, Attempt(b, to, f), to) && Attempt(b, to, f).name == a.name
  {
    hide MovedTree, RewrittenTable, Settled;
    Basics(a, to);
  }

  lemma AttemptPhase(a: State, b: State, to: string, f: Fault)
    requires Settled(a, to) && Phase(a, b, to)
    ensures Phase(a, Attempt(b, to, f), to)
    ensures f != StatFails && !Stranded(a, b, to) ==> !Stranded(a, Attempt(b, to, f), to)
  {
    hide Attempt, MovedTree, Both, Settled;
    if b == a {
      AttemptFromStart(a, to, f);
    } else if to !in a.dirs && (b == MovedTree(a, a.name, to) || b == Both(a, to)) {
      AttemptFromMoved(a, b, to, f);
    } else if to !in a.dirs && b == Both(a, to).(name := to) {
      AttemptFromDone(a, b, to, f);
    } else {
      AttemptFromStranded(a, b, to, f);
    }
  }

  lemma {:induction false} AttemptsPhase(a: State, to: string, fs: seq<Fault>)
    requires Settled(a, to)
    ensures Phase(a, Attempts(a, to, fs), to)
    ensures StatFails !in fs ==> !Stranded(a, Attempts(a, to, fs), to)
  {
    if fs != [] {
      hide Attempt, Phase;
      var front := fs[..|fs| - 1];
      AttemptsPhase(a, to, front);
      AttemptPhase(a, Attempts(a, to, front), to, fs[|fs| - 1]);
    }
  }

  lemma BothRestored(a: State, to: string, b: State)
    requires Settled(a, to) && to !in a.dirs && b == Both(a, to).(name := to)
    ensures Restored(a, b, to)
  {
    var from, into := Old(a), Prefix(a.parent, to);
    SiblingsApart(a.parent, a.name, to);
    assert b.files == MovedFiles(a.files, from, into) && b.recs == Rewritten(a.recs, from, into) && to in b.dirs;
    assert Apart(from, into) && NoneUnder(a.files, into);
    hide MovedFiles, Moved, Prefix, Apart, NoneUnder, NoSlash, Both, MovedTree, RewrittenTable;
    forall r ensures SameRecord(a, b, r) {
      if r in a.recs && a.recs[r] in a.files { FileMoved(a.files, from, into, a.recs[r]); }
    }
    forall p ensures SameFile(a, b, to, p) {
      if p in a.files { FileMoved(a.files, from, into, p); }
    }
  }

  lemma UnmovedRestored(a: State, to: string)
    requires Settled(a, to) && to in a.dirs
    ensures Restored(a, a, to)
  {
    forall p ensures SameFile(a, a, a.name, p) {
      if Under(p, Old(a)) { assert p == Old(a) + p[|Old(a)|..]; }
    }
    hide Moved, Prefix;
  }

  lemma CleanFinishes(a: State, b: State, to: string)
    requires Settled(a, to) && Phase(a, b, to) && !Stranded(a, b, to)
    ensures Attempt(b, to, Clean) == if to in a.dirs then a else Both(a, to).(name := to)
  {
    hide MovedTree, RewrittenTable, Both, Settled;
    Basics(a, to);
    if to !in a.dirs { MoveFacts(a, to); }
  }

  lemma StrandedNotRestored(a: State, b: State, to: string)
    requires Settled(a, to) && Stranded(a, b, to) && b.name == a.name
    ensures !Restored(a, Attempt(b, to, Clean), to)
  {
    hide MovedTree, RewrittenTable, Settled, SameRecord, SameFile;
    Basics(a, to);
  }

  lemma StrandedName(a: State, b: State, to: string)
    requires Settled(a, to) && Phase(a, b, to) && Stranded(a, b, to)
    ensures b.name == a.name
  {
    hide MovedTree, RewrittenTable, Both, Settled;
    Basics(a, to);
    MoveFacts(a, to);
  }

  /**
   * After any attempts with the same new name, failing or killed anywhere, one clean attempt makes every record of
   * an existing file name that file again, under the entity's stored name - if and only if the two directories do
   * not both exist by then.
   */
  lemma RerunRestores(a: State, to: string, fs: seq<Fault>)
    requires Settled(a, to)
    ensures var b := Attempts(a, to, fs);
      Restored(a, Attempt(b, to, Clean), to) <==> !Stranded(a, b, to)
  {
    hide *;
    var b := Attempts(a, to, fs);
    AttemptsPhase(a, to, fs);
    if !Stranded(a, b, to) {
      CleanFinishes(a, b, to);
      if to in a.dirs { UnmovedRestored(a, to); } else { BothRestored(a, to, Both(a, to).(name := to)); }
    } else {
      StrandedName(a, b, to);
      StrandedNotRestored(a, b, to);
    }
  }

  /** A user seen for the first time, or known under this very name: after any failed attempts a clean one has stored
      the name and made its directory, and files and records are as they were. */
  lemma {:induction false} FirstEntity(a: State, to: string, fs: seq<Fault>)
    requires a.name == "" || a.name == to
    ensures Attempt(Attempts(a, to, fs), to, Clean) == a.(name := to, dirs := a.dirs + {to})
    ensures var b := Attempts(a, to, fs);
      b.files == a.files && b.recs == a.recs && b.parent == a.parent && (b.name == a.name || b.name == to) && (b.dirs == a.dirs || b.dirs == a.dirs + {to})
  {
    if fs != [] {
      FirstEntity(a, to, fs[..|fs| - 1]);
      hide MovedTree, RewrittenTable;
    }
  }

  /** For a new user the attempt reports success exactly if afterwards the name is stored and its directory there. */
  lemma FirstReportedIff(a: State, to: string, f: Fault)
    requires a.name == "" && to != "" && to !in a.dirs
    ensures var b := Attempt(a, to, f); Completes(a, to, f) <==> b.name == to && to in b.dirs
  {
    hide MovedTree, RewrittenTable;
  }

  /** A failed rewrite that is rolled back, like a failed move or a taken target, leaves everything as it was. */
  lemma RollbackRestores(a: State, to: string, f: Fault)
    requires Settled(a, to) && (to in a.dirs || f == RewriteFails || f == MoveFails || f == StatFails || f == CrashFirst)
    ensures Attempt(a, to, f) == a
  {
    hide MovedTree, RewrittenTable, Both, Settled;
    Basics(a, to);
    if to !in a.dirs { MoveFacts(a, to); }
  }

  /** Only an attempt that is stopped between move and rewrite, or cannot roll back, leaves records of existing files
      naming nothing - if it has moved such a file. */
  lemma OneAttemptKeepsRecords(a: State, to: string, f: Fault, r: nat)
    requires Settled(a, to) && r in a.recs && a.recs[r] in a.files
    ensures SameRecord(a, Attempt(a, to, f), r) <==>
      !(to !in a.dirs && (f == CrashAfterMove || f == RewriteAndRollbackFail) && Under(a.recs[r], Old(a)))
  {
    if to in a.dirs || f == RewriteFails || f == MoveFails || f == StatFails || f == CrashFirst {
      RollbackRestores(a, to, f);
    } else if f == CrashAfterMove || f == RewriteAndRollbackFail {
      StoppedAfterMove(a, to, f);
      if Under(a.recs[r], Old(a)) { MovedAway(a, to, r); } else { NotMoved(a, to, r); }
      hide MovedTree, Settled, Attempt, Prefix, Under;
    } else {
      MovedThrough(a, to, f);
      BothRestored(a, to, Both(a, to).(name := to));
      hide Both, Settled, Attempt, Prefix, Under, Rewritten;
      assert SameRecord(a, Both(a, to).(name := to), r);
    }
  }

  lemma StoppedAfterMove(a: State, to: string, f: Fault)
    requires Settled(a, to) && to !in a.dirs && (f == CrashAfterMove || f == RewriteAndRollbackFail)
    ensures Attempt(a, to, f) == MovedTree(a, a.name, to)
  {
    hide MovedTree, RewrittenTable;
  }

  lemma MovedThrough(a: State, to: string, f: Fault)
    requires Settled(a, to) && to !in a.dirs && (f == Clean || f == UpsertFails || f == MkdirFails)
    ensures var b := Attempt(a, to, f); b.files == Both(a, to).files && b.recs == Both(a, to).recs
  {
    hide MovedTree, RewrittenTable, Both, Settled;
    Basics(a, to);
    MoveFacts(a, to);
  }

  lemma NotMoved(a: State, to: string, r: nat)
    requires Settled(a, to) && to !in a.dirs && r in a.recs && a.recs[r] in a.files && !Under(a.recs[r], Old(a))
    ensures SameRecord(a, MovedTree(a, a.name, to), r)
  {
    SiblingsApart(a.parent, a.name, to);
    FileMoved(a.files, Old(a), Prefix(a.parent, to), a.recs[r]);
    hide MovedFiles, Prefix, NoSlash, Apart, NoneUnder;
  }

  /** Both directories only come to exist if the old one cannot be examined after it was already moved. */
  lemma StrandedOnlyByStat(a: State, to: string, fs: seq<Fault>)
    requires Settled(a, to) && StatFails !in fs
    ensures Restored(a, Attempt(Attempts(a, to, fs), to, Clean), to)
  {
    hide *;
    AttemptsPhase(a, to, fs);
    RerunRestores(a, to, fs);
  }

  /** With both directories there no attempt changes anything, whatever goes wrong in it. */
  lemma {:induction false} BothStay(b: State, to: string, fs: seq<Fault>)
    requires b.name != "" && b.name != to && b.name in b.dirs && to in b.dirs
    ensures Attempts(b, to, fs) == b
  {
    if fs != [] {
      BothStay(b, to, fs[..|fs| - 1]);
      hide MovedTree, RewrittenTable;
      assert b.dirs + {b.name} == b.dirs;
    }
  }

  /**
   * It does happen, from any start: killed after the move, then the old directory cannot be examined and is made
   * anew; from then on the records of the moved files name nothing, whatever is attempted later.
   */
  lemma StatStrands(a: State, to: string, r: nat, later: seq<Fault>)
    requires Settled(a, to) && to !in a.dirs && r in a.recs && Under(a.recs[r], Old(a))
    ensures var b := Attempts(a, to, [CrashAfterMove, StatFails]);
      Stranded(a, b, to) && Attempts(b, to, later) == b && Dangling(b, r)
  {
    hide Attempt, Attempts, MovedTree, RewrittenTable, Both, Settled, Prefix, Under;
    Basics(a, to);
    MoveFacts(a, to);
    MovedAway(a, to, r);
    AttemptsTwo(a, to, CrashAfterMove, StatFails);
    CrashMoves(a, to);
    StatRemakes(MovedTree(a, a.name, to), to);
    BothStay(Attempts(a, to, [CrashAfterMove, StatFails]), to, later);
  }

  predicate Dangling(s: State, r: nat) { r in s.recs && s.recs[r] !in s.files }

  lemma CrashMoves(a: State, to: string)
    requires Settled(a, to) && to !in a.dirs
    ensures Attempt(a, to, CrashAfterMove) == MovedTree(a, a.name, to)
  {
  }

  lemma StatRemakes(m: State, to: string)
    requires m.name != to && m.name != "" && m.name !in m.dirs && to in m.dirs
    ensures Attempt(m, to, StatFails) == m.(dirs := m.dirs + {m.name})
  {
    hide MovedTree, RewrittenTable;
  }

  lemma AttemptsTwo(s: State, to: string, f: Fault, g: Fault)
    ensures Attempts(s, to, [f, g]) == Attempt(Attempt(s, to, f), to, g)
  {
    hide Attempt;
    assert [f][..0] == [] && [f, g][..1] == [f];
    assert Attempts(s, to, [f]) == Attempt(s, to, f);
  }

  lemma MovedAway(a: State, to: string, r: nat)
    requires Settled(a, to) && to !in a.dirs && r in a.recs && Under(a.recs[r], Old(a))
    ensures Dangling(MovedTree(a, a.name, to), r)
  {
    SiblingsApart(a.parent, a.name, to);
    SourceEmptied(a.files, Old(a), Prefix(a.parent, to));
    assert !Under(a.recs[r], Old(a)) || a.recs[r] !in MovedFiles(a.files, Old(a), Prefix(a.parent, to));
    hide MovedFiles, Prefix, Under, NoSlash, Apart;
  }

  /**
   * With a missing source the rewrite changes exactly the records under the old prefix, whether or not the new
   * directory exists; the comment in the code says that it would then match no record.
   */
  lemma MissingSourceRewrites(s: State, to: string, r: nat)
    requires s.name != "" && s.name != to && s.name !in s.dirs && NoSlash(s.name) && NoSlash(to) && r in s.recs
    ensures var b := Attempt(s, to, Clean);
      && b.files == s.files && b.name == to && b.recs.Keys == s.recs.Keys
      && (b.recs[r] != s.recs[r] <==> Under(s.recs[r], Old(s)))
      && (Under(s.recs[r], Old(s)) ==> Under(b.recs[r], Prefix(s.parent, to)))
  {
    if Under(s.recs[r], Old(s)) {
      SiblingsApart(s.parent, s.name, to);
      var p := Moved(s.recs[r], Old(s), Prefix(s.parent, to));
      ApartPath(p, Old(s), Prefix(s.parent, to));
      assert Under(p, Prefix(s.parent, to));
    }
    hide MovedFiles, Prefix, NoSlash;
  }

  /** So the comment is right exactly for tables without a record under the old prefix. */
  lemma CommentRightIff(s: State, to: string)
    requires s.name != "" && s.name != to && s.name !in s.dirs && NoSlash(s.name) && NoSlash(to)
    ensures Attempt(s, to, Clean).recs == s.recs <==> forall r :: r in s.recs ==> !Under(s.recs[r], Old(s))
  {
    hide Attempt, Under, NoSlash;
    var b := Attempt(s, to, Clean);
    forall r | r in s.recs
      ensures b.recs.Keys == s.recs.Keys && (b.recs[r] != s.recs[r] <==> Under(s.recs[r], Old(s)))
    {
      MissingSourceRewrites(s, to, r);
    }
    if s.recs == map[] { EmptyTable(s, to); }
  }

  lemma EmptyTable(s: State, to: string)
    requires s.recs == map[]
    ensures Attempt(s, to, Clean).recs == map[]
  {
    hide MovedFiles;
  }
}
