/** Publishing a download under a free name while others publish beside it. */
module Publish {
  import opened Filenames
  import opened Options

  datatype Node = Regular(data: string) | Folder

  /** What goes wrong at one attempt. */
  datatype Fault = NoFault | LinkFails | RemoveFails | ReserveFails | CloseFails | RenameFails | StatFails | UnlinkFails

  datatype Outcome =
    | Published(path: string)
    | Skipped(path: string)
    | TooManyConflicts
    | Failed

  datatype FileState = Absent | Complete | Partial | Directory

  /** Content-Length is negative when unknown; then no existing file passes for complete. */
  function Judge(node: Node, contentLength: int): FileState {
    match node
    case Folder => Directory
    case Regular(data) => if contentLength >= 0 && |data| == contentLength then Complete else Partial
  }

  // ---------- what others do meanwhile ----------

  /** Between two looks of ours at the directory others may remove files and add new ones. */
  datatype Change = Change(gone: set<string>, more: map<string, Node>)

  /** The looks of one attempt: the publication (with a second one before the rename, where there are no hard links),
      the check of the old base file, and its removal. */
  datatype Moment = BeforePublish | BeforeRename | BeforeCheck | BeforeRemoval

  /** The files, among them what others have put there, and the names that others have removed. */
  datatype View = View(files: map<string, Node>, foreign: map<string, Node>, gone: set<string>)

  ghost predicate Honest(v: View) {
    forall p {:trigger p in v.foreign} :: p in v.foreign ==> p in v.files && v.files[p] == v.foreign[p]
  }

  /** Others only ever add names that are free by then. */
  function AfterOthers(v: View, c: Change): View {
    var left := v.files - c.gone;
    View(c.more + left, (v.foreign - c.gone) + (c.more - left.Keys), v.gone + c.gone)
  }

  ghost predicate Spares(c: Change, temp: string) { temp !in c.gone && temp !in c.more }

  /** Nobody else touches our temporary file. */
  ghost predicate SparesTemp(others: (nat, Moment) -> Change, temp: string) {
    forall n, m {:trigger others(n, m)} :: Spares(others(n, m), temp)
  }

  // ---------- what a publication leaves alone ----------

  /** Files of the start and files of others stay as they are, except those that others removed and
      a base file that was deleted. */
  ghost predicate SafeAt(a: View, b: View, temp: string, base: string, deleted: bool, p: string) {
    && (p in a.files && p != temp && p !in b.gone && !(p == base && deleted) ==> p in b.files && b.files[p] == a.files[p])
    && (p in b.foreign ==> p != temp && p in b.files && b.files[p] == b.foreign[p])
    && (p in a.foreign && p !in b.gone && !(p == base && deleted) ==> p in b.foreign)
    && (p in a.gone ==> p in b.gone)
  }

  ghost predicate Safe(a: View, b: View, temp: string, base: string, deleted: bool) {
    forall p {:trigger SafeAt(a, b, temp, base, deleted, p)} :: SafeAt(a, b, temp, base, deleted, p)
  }

  lemma OthersSafe(a: View, b: View, temp: string, base: string, deleted: bool, c: Change)
    requires Safe(a, b, temp, base, deleted) && Spares(c, temp)
    ensures Safe(a, AfterOthers(b, c), temp, base, deleted)
  {
    forall p ensures SafeAt(a, AfterOthers(b, c), temp, base, deleted, p) {
      assert SafeAt(a, b, temp, base, deleted, p);
    }
  }

  lemma PublishSafe(a: View, b: View, temp: string, base: string, deleted: bool, path: string, node: Node, keepTemp: bool)
    requires Safe(a, b, temp, base, deleted) && path !in b.files && path != temp && temp != base
    ensures Safe(a, b.(files := (if keepTemp then b.files else b.files - {temp})[path := node]), temp, base, deleted)
  {
    var c := b.(files := (if keepTemp then b.files else b.files - {temp})[path := node]);
    forall p ensures SafeAt(a, c, temp, base, deleted, p) {
      assert SafeAt(a, b, temp, base, deleted, p);
    }
  }

  lemma DropTempSafe(a: View, b: View, temp: string, base: string, deleted: bool)
    requires Safe(a, b, temp, base, deleted) && temp != base
    ensures Safe(a, b.(files := b.files - {temp}), temp, base, deleted)
  {
    forall p ensures SafeAt(a, b.(files := b.files - {temp}), temp, base, deleted, p) {
      assert SafeAt(a, b, temp, base, deleted, p);
    }
  }

  /** A free name is reserved, others act, and then the content is placed or the name given up. */
  lemma ReservedSafe(a: View, v: View, temp: string, base: string, deleted: bool, path: string, change: Change, node: Node)
    requires Safe(a, v, temp, base, deleted) && path !in v.files && path != temp && temp != base && Spares(change, temp)
    ensures var w := AfterOthers(Reserved(v, path), change);
      Safe(a, w, temp, base, deleted) && Safe(a, Placed(w, temp, path, node), temp, base, deleted) && Safe(a, Without(w, path), temp, base, deleted)
  {
    var w := AfterOthers(Reserved(v, path), change);
    PublishSafe(a, v, temp, base, deleted, path, Regular(""), true);
    OthersSafe(a, Reserved(v, path), temp, base, deleted, change);
    assert SafeAt(a, v, temp, base, deleted, path);
    forall p
      ensures SafeAt(a, Placed(w, temp, path, node), temp, base, deleted, p)
      ensures SafeAt(a, Without(w, path), temp, base, deleted, p)
    {
      assert SafeAt(a, w, temp, base, deleted, p);
    }
  }

  lemma PlacedSafe(a: View, v: View, temp: string, base: string, deleted: bool, path: string, node: Node)
    requires Safe(a, v, temp, base, deleted) && path !in v.files && path != temp && temp != base
    ensures Safe(a, Placed(v, temp, path, node), temp, base, deleted)
  {
    forall p ensures SafeAt(a, Placed(v, temp, path, node), temp, base, deleted, p) {
      assert SafeAt(a, v, temp, base, deleted, p);
      assert SafeAt(a, v, temp, base, deleted, path);
    }
  }

  lemma RemoveSafe(a: View, b: View, temp: string, base: string)
    requires Safe(a, b, temp, base, false) && base != temp
    ensures Safe(a, b.(files := b.files - {base}, foreign := b.foreign - {base}), temp, base, true)
  {
    forall p ensures SafeAt(a, b.(files := b.files - {base}, foreign := b.foreign - {base}), temp, base, true, p) {
      assert SafeAt(a, b, temp, base, false, p);
    }
  }

  lemma StartSafe(a: View, temp: string, base: string)
    requires Honest(a) && temp !in a.foreign
    ensures Safe(a, a, temp, base, false)
  {
  }

  lemma SafeHonest(a: View, b: View, temp: string, base: string, deleted: bool)
    requires Safe(a, b, temp, base, deleted)
    ensures Honest(b) && temp !in b.foreign
  {
    forall p | p in b.foreign ensures p != temp && p in b.files && b.files[p] == b.foreign[p] {
      assert SafeAt(a, b, temp, base, deleted, p);
    }
  }

  // ---------- the base file that goes ----------

  /** The directory when the base file would be removed. */
  function AtRemoval(start: View, others: (nat, Moment) -> Change): View {
    AfterOthers(AfterOthers(AfterOthers(start, others(0, BeforePublish)), others(0, BeforeCheck)), others(0, BeforeRemoval))
  }

  /** What a removal takes: the file must look incomplete, and goes whatever others do to it before. */
  function Removed(v: View, path: string, contentLength: int, change: Change, fault: Fault): Option<Node> {
    if fault == StatFails || path !in v.files || Judge(v.files[path], contentLength) != Partial then None
    else if fault == UnlinkFails || path !in AfterOthers(v, change).files then None
    else Some(AfterOthers(v, change).files[path])
  }

  function Without(v: View, path: string): View { v.(files := v.files - {path}, foreign := v.foreign - {path}) }

  function AfterRemoval(v: View, path: string, contentLength: int, change: Change, fault: Fault): View {
    if fault == StatFails || path !in v.files || Judge(v.files[path], contentLength) != Partial then v
    else if Removed(v, path, contentLength, change, fault).Some? then Without(AfterOthers(v, change), path)
    else AfterOthers(v, change)
  }

  /**
   * What is deleted under the base name. The first attempt must find the name taken and a file there that looks
   * incomplete; what goes is whatever stands there when the removal comes.
   */
  function Deletes(start: View, base: string, contentLength: int, replaceBase: bool, hardLinks: bool,
                   others: (nat, Moment) -> Change, fault: Fault): Option<Node>
  {
    var v0 := AfterOthers(start, others(0, BeforePublish));
    if !replaceBase || base !in v0.files || fault == (if hardLinks then LinkFails else ReserveFails) then None
    else Removed(AfterOthers(v0, others(0, BeforeCheck)), base, contentLength, others(0, BeforeRemoval), fault)
  }

  /** The directory at the first look at the base file. */
  function AtCheck(start: View, others: (nat, Moment) -> Change): View {
    AfterOthers(AfterOthers(start, others(0, BeforePublish)), others(0, BeforeCheck))
  }

  /** Somebody else removes the base file before our removal comes. */
  ghost predicate TakenAway(others: (nat, Moment) -> Change, base: string) {
    exists m {:trigger others(0, m)} :: m != BeforeRename && base in others(0, m).gone
  }

  /** A deleted file is one that another publisher put there meanwhile if and only if somebody else removed the base
      file before; otherwise it is the file of the start. */
  lemma NewerDeletedIff(start: View, base: string, contentLength: int, replaceBase: bool, hardLinks: bool,
                        others: (nat, Moment) -> Change, fault: Fault)
    requires base in start.files && base !in start.foreign
    requires Deletes(start, base, contentLength, replaceBase, hardLinks, others, fault).Some?
    ensures base in AtRemoval(start, others).foreign <==> TakenAway(others, base)
    ensures !TakenAway(others, base) ==>
      Deletes(start, base, contentLength, replaceBase, hardLinks, others, fault) == Some(start.files[base])
  {
    var c0, c1, c2 := others(0, BeforePublish), others(0, BeforeCheck), others(0, BeforeRemoval);
    assert TakenAway(others, base) <==> base in c0.gone || base in c1.gone || base in c2.gone by {
      if TakenAway(others, base) {
        var m :| m != BeforeRename && base in others(0, m).gone;
        match m { case _ => }
      }
    }
    OneChange(start, c0, base);
    OneChange(AfterOthers(start, c0), c1, base);
    OneChange(AfterOthers(AfterOthers(start, c0), c1), c2, base);
    hide AfterOthers, TakenAway;
  }

  lemma OneChange(v: View, c: Change, p: string)
    ensures var w := AfterOthers(v, c);
      && (p !in c.gone && p in v.files ==> p in w.files && w.files[p] == v.files[p] && (p in w.foreign <==> p in v.foreign))
      && (p in c.gone || p !in v.files ==> (p in w.files <==> p in c.more) && (p in w.files ==> p in w.foreign))
  {
  }

  /** The file of another publisher goes, while everybody spares our temporary file. */
  ghost predicate NewerGoes(start: View, temp: string, base: string, contentLength: int, replaceBase: bool, hardLinks: bool,
                            others: (nat, Moment) -> Change)
  {
    && SparesTemp(others, temp) && base in AtRemoval(start, others).foreign
    && Deletes(start, base, contentLength, replaceBase, hardLinks, others, NoFault).Some?
  }

  /** The base file of the start looks incomplete and is not known to belong to another medium. */
  predicate ReplacesBase(start: View, base: string, contentLength: int, owner: Option<bool>) {
    base in start.files && Judge(start.files[base], contentLength) == Partial && owner != Some(false)
  }

  /** Others can bring it about that a newer file of theirs is deleted. */
  ghost predicate NewerMayGo(start: View, temp: string, base: string, contentLength: int, replaceBase: bool, hardLinks: bool) {
    exists others: (nat, Moment) -> Change {:trigger SparesTemp(others, temp)} ::
      NewerGoes(start, temp, base, contentLength, replaceBase, hardLinks, others)
  }

  /** Before the call: they can if and only if the base file of the start is to be replaced. */
  lemma NewerMayGoIff(start: View, temp: string, base: string, contentLength: int, owner: Option<bool>, hardLinks: bool)
    requires temp != base
    ensures NewerMayGo(start, temp, base, contentLength, ReplacesBase(start, base, contentLength, owner), hardLinks)
      <==> ReplacesBase(start, base, contentLength, owner)
  {
    if ReplacesBase(start, base, contentLength, owner) {
      SwapGoes(start, temp, base, contentLength, hardLinks);
    }
    forall others: (nat, Moment) -> Change ensures !NewerGoes(start, temp, base, contentLength, false, hardLinks, others) {
      NotReplaced(start, base, contentLength, hardLinks, others, NoFault);
    }
    hide ReplacesBase, NewerGoes;
  }

  lemma SwapGoes(start: View, temp: string, base: string, contentLength: int, hardLinks: bool)
    requires temp != base && base in start.files
    ensures NewerMayGo(start, temp, base, contentLength, true, hardLinks)
  {
    var newer := if contentLength == 1 then "" else "x";
    var others := Swapping(base, newer);
    NewerFileDeleted(start, base, contentLength, newer, hardLinks);
    SwapSpares(temp, base, newer);
    SwapStays(start, base, newer);
    hide Deletes, SparesTemp, AtRemoval, Swapping;
    assert NewerGoes(start, temp, base, contentLength, true, hardLinks, others);
  }

  lemma SwapSpares(temp: string, base: string, newer: string)
    requires temp != base
    ensures SparesTemp(Swapping(base, newer), temp)
  {
  }

  lemma SwapStays(start: View, base: string, newer: string)
    ensures base in AtRemoval(start, Swapping(base, newer)).foreign
  {
    var others := Swapping(base, newer);
    var v0 := AfterOthers(start, others(0, BeforePublish));
    OneChange(start, others(0, BeforePublish), base);
    OneChange(v0, others(0, BeforeCheck), base);
    OneChange(AfterOthers(v0, others(0, BeforeCheck)), others(0, BeforeRemoval), base);
    hide AfterOthers;
  }

  lemma NotReplaced(start: View, base: string, contentLength: int, hardLinks: bool, others: (nat, Moment) -> Change, fault: Fault)
    ensures Deletes(start, base, contentLength, false, hardLinks, others, fault) == None
  {
  }

  /** Only a file that looks incomplete starts a deletion: no folder, and no file of the expected length. */
  lemma DeletesPartialOnly(start: View, base: string, contentLength: int, replaceBase: bool, hardLinks: bool,
                           others: (nat, Moment) -> Change, fault: Fault)
    requires Deletes(start, base, contentLength, replaceBase, hardLinks, others, fault).Some?
    ensures var v := AtCheck(start, others);
      replaceBase && base in v.files && v.files[base].Regular? && !(contentLength >= 0 && |v.files[base].data| == contentLength)
  {
    hide AfterOthers;
  }

  /** Others replace the base file once, before our first look at it. */
  function Swapping(base: string, newer: string): (nat, Moment) -> Change {
    (n: nat, m: Moment) => if n == 0 && m == BeforePublish then Change({base}, map[base := Regular(newer)]) else Change({}, map[])
  }

  /** Only the file of the start is ever deleted if nobody else removes the base file meanwhile. */
  lemma OthersKeepBase(start: View, base: string, contentLength: int, hardLinks: bool, others: (nat, Moment) -> Change, fault: Fault)
    requires base in start.files && !TakenAway(others, base)
    ensures Deletes(start, base, contentLength, true, hardLinks, others, fault) in {None, Some(start.files[base])}
  {
    assert forall m :: m != BeforeRename ==> base !in others(0, m).gone;
  }

  /**
   * The comment of the code says that files which appear during the download are conflicts and not partials. They
   * are taken for partials: where another publisher replaces the incomplete file of the start by its own, that newer
   * file is deleted - a complete one too, if the server names no length.
   */
  lemma NewerFileDeleted(start: View, base: string, contentLength: int, newer: string, hardLinks: bool)
    requires base in start.files && (contentLength < 0 || |newer| != contentLength)
    ensures Deletes(start, base, contentLength, true, hardLinks, Swapping(base, newer), NoFault) == Some(Regular(newer))
  {
  }

  /** Between the check and the removal even a file of the expected length goes. */
  lemma CompleteFileDeleted(start: View, base: string, newer: string, hardLinks: bool)
    requires base in start.files && Judge(start.files[base], |newer|) == Partial
    ensures var swap := Change({base}, map[base := Regular(newer)]);
      var others := (n: nat, m: Moment) => if n == 0 && m == BeforeRemoval then swap else Change({}, map[]);
      Judge(Regular(newer), |newer|) == Complete
      && Deletes(start, base, |newer|, true, hardLinks, others, NoFault) == Some(Regular(newer))
  {
  }

  // ---------- the placeholder ----------

  /** An empty file holds the name until the rename. */
  function Reserved(v: View, path: string): View { v.(files := v.files[path := Regular("")]) }

  /** The content is at `path`, whatever stood there, and the temporary name is gone. */
  function Placed(v: View, temp: string, path: string, node: Node): View {
    v.(files := (v.files - {temp})[path := node], foreign := v.foreign - {path})
  }

  function Publication(v: View, temp: string, path: string, hardLinks: bool, change: Change): View
    requires temp in v.files
  {
    Placed(if hardLinks then v else AfterOthers(Reserved(v, path), change), temp, path, v.files[temp])
  }

  /** What a failed publication under a free name leaves. */
  predicate Unpublished(v: View, temp: string, path: string, hardLinks: bool, change: Change, cleanupFails: bool, w: View)
    requires temp in v.files
  {
    var acted := AfterOthers(Reserved(v, path), change);
    || w == v
    || w == (if hardLinks then v.(files := v.files[path := v.files[temp]]) else if cleanupFails then acted else Without(acted, path))
  }

  predicate RenameWorks(v: View, path: string, fault: Fault) {
    fault != CloseFails && fault != RenameFails && !(path in v.files && v.files[path].Folder?)
  }

  /** The file of another publisher that the rename onto the placeholder, or the clean-up after it, destroys. */
  function Overwritten(v: View, path: string, hardLinks: bool, change: Change, fault: Fault, cleanupFails: bool): Option<Node> {
    var w := AfterOthers(Reserved(v, path), change);
    if hardLinks || fault == ReserveFails || path in v.files || path !in w.foreign then None
    else if cleanupFails && !RenameWorks(w, path, fault) then None
    else Some(w.foreign[path])
  }

  /** Others remove what stands at `path` and put a file of their own there. */
  predicate Takes(change: Change, path: string) { path in change.gone && path in change.more }

  lemma TakesPlace(v: View, path: string, change: Change)
    requires Honest(v) && path !in v.files
    ensures var w := AfterOthers(Reserved(v, path), change);
      (path in w.foreign <==> Takes(change, path)) && (path in w.foreign ==> w.foreign[path] == change.more[path])
  {
    assert path in v.foreign ==> path in v.files;
  }

  ghost predicate LostAt(lost: Option<Node>, path: string, hardLinks: bool, change: Change) {
    lost.Some? ==> !hardLinks && Takes(change, path) && lost.value == change.more[path]
  }

  /** The lost file had taken the place of our placeholder under one of the variants. */
  ghost predicate LostToUs(lost: Option<Node>, base: string, max: int, others: (nat, Moment) -> Change) {
    exists i: nat, n: nat {:trigger LostAt(lost, Candidate(base, i, max), false, others(n, BeforeRename))} ::
      LostAt(lost, Candidate(base, i, max), false, others(n, BeforeRename))
  }

  lemma WhatIsLost(v: View, path: string, hardLinks: bool, change: Change, fault: Fault, cleanupFails: bool)
    requires Honest(v)
    ensures LostAt(Overwritten(v, path, hardLinks, change, fault, cleanupFails), path, hardLinks, change)
    ensures path in v.files ==> Overwritten(v, path, hardLinks, change, fault, cleanupFails).None?
  {
    if path !in v.files { TakesPlace(v, path, change); }
    hide AfterOthers, Honest, Takes;
  }

  /** Another publisher's file is destroyed if and only if it takes the place of our placeholder, where there are no
      hard links and the name was free. */
  lemma OverwrittenIff(v: View, path: string, hardLinks: bool, change: Change, fault: Fault)
    requires Honest(v)
    ensures var lost := Overwritten(v, path, hardLinks, change, fault, false);
      && (lost.Some? <==> (!hardLinks && fault != ReserveFails && path !in v.files && Takes(change, path)))
      && (lost.Some? ==> lost.value == change.more[path])
  {
    if path !in v.files { TakesPlace(v, path, change); }
    hide AfterOthers, Honest, Takes;
  }

  ghost predicate FileLost(v: View, temp: string, path: string, hardLinks: bool, change: Change) {
    Spares(change, temp) && Overwritten(v, path, hardLinks, change, NoFault, false).Some?
  }

  /** Before the publication: others can lose a file to us under a name if and only if the name is free and there are
      no hard links. */
  lemma MayOverwriteIff(v: View, temp: string, path: string, hardLinks: bool)
    requires Honest(v) && temp != path
    ensures (exists change :: FileLost(v, temp, path, hardLinks, change)) <==> (!hardLinks && path !in v.files)
  {
    if !hardLinks && path !in v.files {
      var change := Change({path}, map[path := Regular("")]);
      OverwrittenIff(v, path, hardLinks, change, NoFault);
      assert FileLost(v, temp, path, hardLinks, change);
    }
  }

  /**
   * The comment of the code says that the rename replaces only our own placeholder. Another publisher of the same
   * medium that is replacing an incomplete file takes the placeholder for it and deletes it; the complete file that it
   * then publishes is overwritten.
   */
  lemma PlaceholderTaken(v: View, base: string, newer: string)
    requires Honest(v) && base !in v.files && newer != ""
    ensures Deletes(Reserved(v, base), base, |newer|, true, false, (n: nat, m: Moment) => Change({}, map[]), NoFault) == Some(Regular(""))
    ensures Overwritten(v, base, false, Change({base}, map[base := Regular(newer)]), NoFault, false) == Some(Regular(newer))
  {
    OverwrittenIff(v, base, false, Change({base}, map[base := Regular(newer)]), NoFault);
    hide Overwritten;
  }

  // ---------- taken variants ----------

  /** Variant `i` is taken, or was until somebody removed it. */
  predicate Taken(v: View, base: string, max: int, deleted: bool, i: nat) {
    var c := Candidate(base, i, max);
    c in v.files || c in v.gone || (c == base && deleted)
  }

  ghost predicate AllTaken(v: View, base: string, max: int, deleted: bool, upto: nat) {
    forall i {:trigger Taken(v, base, max, deleted, i)} :: 0 <= i < upto ==> Taken(v, base, max, deleted, i)
  }

  lemma StillTaken(v: View, c: Change, base: string, max: int, deleted: bool, upto: nat)
    requires AllTaken(v, base, max, deleted, upto)
    ensures AllTaken(AfterOthers(v, c), base, max, deleted, upto)
  {
    hide Candidate;
    forall i | 0 <= i < upto ensures Taken(AfterOthers(v, c), base, max, deleted, i) {
      assert Taken(v, base, max, deleted, i);
    }
  }

  lemma TakenAfterPublish(v: View, temp: string, path: string, node: Node, base: string, max: int, deleted: bool, upto: nat)
    requires AllTaken(v, base, max, deleted, upto) && NotTemp(temp, base, max) && upto <= MAX_CONFLICTS
    ensures AllTaken(Placed(v, temp, path, node), base, max, deleted, upto) && AllTaken(Reserved(v, path), base, max, deleted, upto)
  {
    hide Candidate;
    forall i | 0 <= i < upto
      ensures Taken(Placed(v, temp, path, node), base, max, deleted, i) && Taken(Reserved(v, path), base, max, deleted, i)
    {
      assert Taken(v, base, max, deleted, i);
      assert Differs(temp, base, max, i);
    }
  }

  predicate Differs(temp: string, base: string, max: int, i: nat) { Candidate(base, i, max) != temp }

  /** Temporary names start with a dot, so no variant is one. */
  ghost predicate NotTemp(temp: string, base: string, max: int) {
    forall i {:trigger Differs(temp, base, max, i)} :: 0 <= i <= MAX_CONFLICTS ==> Differs(temp, base, max, i)
  }

  lemma BaseVariant(temp: string, base: string, max: int)
    requires NotTemp(temp, base, max)
    ensures Candidate(base, 0, max) == base && base != temp
  {
    assert Differs(temp, base, max, 0);
  }

  lemma VariantDiffers(temp: string, base: string, max: int, i: nat)
    requires NotTemp(temp, base, max) && i <= MAX_CONFLICTS
    ensures Candidate(base, i, max) != temp
  {
    hide Candidate;
    assert Differs(temp, base, max, i);
  }

  lemma OneMoreTaken(v: View, base: string, max: int, deleted: bool, upto: nat)
    requires AllTaken(v, base, max, deleted, upto) && Candidate(base, upto, max) in v.files
    ensures AllTaken(v, base, max, deleted, upto + 1)
  {
    hide Candidate;
  }

  // ---------- the attempts of one publication ----------

  /** What a call is about, and what happens around it. */
  datatype Call = Call(temp: string, base: string, contentLength: int, max: int, replaceBase: bool, hardLinks: bool, cleanupFails: bool,
                       others: (nat, Moment) -> Change, faults: nat -> Fault)
  {
    function Path(index: nat): string { Candidate(base, index, max) }

    function Deleted(start: View): Option<Node> {
      Deletes(start, base, contentLength, replaceBase, hardLinks, others, faults(0))
    }

    function First(start: View): View { AfterOthers(start, others(0, BeforePublish)) }

    /** The first attempt finds the name taken and looks at the file there. */
    predicate Looks(start: View) {
      && replaceBase && base in First(start).files
      && faults(0) != Refusal() && faults(0) != StatFails && base in AtCheck(start, others).files
    }

    /** The fault that hides from us whether a name is taken. */
    function Refusal(): Fault { if hardLinks then LinkFails else ReserveFails }

    /** The file there turns out to be complete. */
    predicate Skips(start: View) { Looks(start) && Judge(AtCheck(start, others).files[base], contentLength) == Complete }

    function Cleared(start: View): View { AfterRemoval(AtCheck(start, others), base, contentLength, others(0, BeforeRemoval), faults(0)) }

    /** The first attempt clears the base name. */
    predicate Clears(start: View) {
      && Looks(start) && Judge(AtCheck(start, others).files[base], contentLength) == Partial
      && base !in Cleared(start).files
    }

    /** And the name is still free at the second attempt. */
    predicate FreeAgain(start: View) { Clears(start) && base !in AfterOthers(Cleared(start), others(1, BeforePublish)).files }

    /** Something goes wrong in an attempt: a fault, or others put a folder in the place of the placeholder. */
    predicate Trouble(attempt: nat, index: nat) {
      faults(attempt) != NoFault || (Path(index) in others(attempt, BeforeRename).more && others(attempt, BeforeRename).more[Path(index)].Folder?)
    }

    ghost predicate Ready(start: View) {
      && temp in start.files && start.files[temp].Regular? && NotTemp(temp, base, max)
      && Honest(start) && temp !in start.foreign && SparesTemp(others, temp)
    }
  }

  ghost predicate Troubled(c: Call) { exists n: nat, i: nat {:trigger c.Trouble(n, i)} :: c.Trouble(n, i) }

  /** The base file of the start is the whole file already, and not known to belong to another medium. */
  predicate Has(start: View, base: string, contentLength: int, owner: Option<bool>) {
    base in start.files && Judge(start.files[base], contentLength) == Complete && owner != Some(false)
  }

  /** The state before an attempt: the earlier variants were taken, nothing else was touched, and the base file was
      looked at in the first attempt only. */
  ghost predicate Going(c: Call, start: View, v: View, attempt: nat, index: nat, tried: bool, deleted: Option<Node>) {
    && c.Ready(start) && index <= MAX_CONFLICTS + 1 && (deleted.Some? ==> tried)
    && c.temp in v.files && v.files[c.temp] == start.files[c.temp]
    && AllTaken(v, c.base, c.max, deleted.Some?, index) && Safe(start, v, c.temp, c.base, deleted.Some?)
    && (attempt == 0 ==> v == start && index == 0 && !tried && deleted.None?)
    && (attempt > 0 ==> deleted == c.Deleted(start) && !c.Skips(start) && c.base in c.First(start).files && (index == 0 ==> tried))
    && (attempt == 1 && c.Clears(start) ==> index == 0 && v == c.Cleared(start))
    && (attempt > 1 ==> !c.FreeAgain(start))
  }

  /** How a publication ends, with the number of its last attempt. */
  ghost predicate Ended(c: Call, start: View, v: View, r: Outcome, deleted: Option<Node>, index: nat, last: nat, lost: Option<Node>)
    requires c.temp in start.files
  {
    var temp, data := c.temp, start.files[c.temp];
    && deleted == c.Deleted(start) && Safe(start, v, temp, c.base, deleted.Some?) && (temp in v.files ==> v.files[temp] == data)
    && LostAt(lost, c.Path(index), c.hardLinks, c.others(last, BeforeRename))
    && (r.Skipped? <==> c.Skips(start))
    && (c.base !in c.First(start).files && !c.Trouble(0, 0) ==> r == Published(c.base))
    && (c.FreeAgain(start) && !c.Trouble(1, 0) ==> r == Published(c.base))
    && match r
       case Published(path) =>
         && index <= MAX_CONFLICTS && path == c.Path(index) && AllTaken(v, c.base, c.max, deleted.Some?, index)
         && path in v.files && v.files[path] == data && temp !in v.files
         && (path in start.files ==> path in v.gone || (path == c.base && deleted.Some?))
         && (lost.Some? <==> !c.hardLinks && Takes(c.others(last, BeforeRename), path))
       case Skipped(path) =>
         && path == c.base && c.base in v.files && Judge(v.files[c.base], c.contentLength) == Complete
         && deleted.None? && lost.None? && (temp in v.files <==> c.cleanupFails)
       case TooManyConflicts => AllTaken(v, c.base, c.max, deleted.Some?, MAX_CONFLICTS + 1) && lost.None?
       case Failed => c.Trouble(last, index)
  }

  lemma Begins(c: Call, start: View)
    requires c.Ready(start)
    ensures Going(c, start, start, 0, 0, false, None)
  {
    hide Candidate;
    StartSafe(start, c.temp, c.base);
    NoneTaken(start, c.base, c.max);
  }

  /** The state at the attempt itself. */
  lemma Acts(c: Call, start: View, v: View, attempt: nat, index: nat, tried: bool, deleted: Option<Node>)
    requires Going(c, start, v, attempt, index, tried, deleted) && index <= MAX_CONFLICTS
    ensures var w := AfterOthers(v, c.others(attempt, BeforePublish));
      && c.temp in w.files && w.files[c.temp] == start.files[c.temp] && Honest(w) && c.temp !in w.foreign
      && Safe(start, w, c.temp, c.base, deleted.Some?) && AllTaken(w, c.base, c.max, deleted.Some?, index)
    ensures c.Path(index) != c.temp && c.Path(0) == c.base != c.temp && Spares(c.others(attempt, BeforeRename), c.temp)
  {
    var change := c.others(attempt, BeforePublish);
    hide Candidate, NotTemp, Differs, Spares, AllTaken, Safe, AfterOthers, Honest;
    StillTaken(v, change, c.base, c.max, deleted.Some?, index);
    OthersSafe(start, v, c.temp, c.base, deleted.Some?, change);
    OthersFiles(v, change, c.temp);
    SafeHonest(start, AfterOthers(v, change), c.temp, c.base, deleted.Some?);
    VariantDiffers(c.temp, c.base, c.max, index);
    BaseVariant(c.temp, c.base, c.max);
  }

  /** What follows for the whole call if this attempt is the last one, and the base file was not found in it. */
  lemma Settles(c: Call, start: View, v: View, attempt: nat, index: nat, tried: bool, deleted: Option<Node>)
    requires Going(c, start, v, attempt, index, tried, deleted)
    requires attempt == 0 ==> c.base !in c.First(start).files || c.faults(0) == c.Refusal()
    ensures deleted == c.Deleted(start) && !c.Skips(start)
    ensures c.base !in c.First(start).files ==> attempt == 0 && index == 0
    ensures c.FreeAgain(start) ==> attempt == 1 && index == 0
  {
    hide AfterOthers, Judge, Removed, AfterRemoval, Candidate, Safe, AllTaken;
  }

  lemma EndsFailed(c: Call, start: View, v: View, attempt: nat, index: nat, tried: bool, deleted: Option<Node>, w2: View, lost: Option<Node>)
    requires Going(c, start, v, attempt, index, tried, deleted) && index <= MAX_CONFLICTS
    requires c.Trouble(attempt, index)
    requires c.temp in AfterOthers(v, c.others(attempt, BeforePublish)).files
    requires var w := AfterOthers(v, c.others(attempt, BeforePublish));
      && lost == Overwritten(w, c.Path(index), c.hardLinks, c.others(attempt, BeforeRename), c.faults(attempt), c.cleanupFails)
      && if c.Path(index) in w.files then w2 == w && c.faults(attempt) == c.Refusal()
         else Unpublished(w, c.temp, c.Path(index), c.hardLinks, c.others(attempt, BeforeRename), c.cleanupFails, w2)
    ensures Ended(c, start, w2, Failed, deleted, index, attempt, lost)
  {
    var w, change := AfterOthers(v, c.others(attempt, BeforePublish)), c.others(attempt, BeforeRename);
    Acts(c, start, v, attempt, index, tried, deleted);
    WhatIsLost(w, c.Path(index), c.hardLinks, change, c.faults(attempt), c.cleanupFails);
    if c.Path(index) !in w.files {
      UnpublishedKeeps(start, w, c.temp, c.base, deleted.Some?, c.Path(index), c.hardLinks, change, c.cleanupFails, w2);
    }
    Settles(c, start, v, attempt, index, tried, deleted);
    hide Safe, AllTaken, AfterOthers, Unpublished, Overwritten, Removed, AfterRemoval, Candidate, LostAt, Judge;
  }

  lemma EndsPublished(c: Call, start: View, v: View, attempt: nat, index: nat, tried: bool, deleted: Option<Node>, lost: Option<Node>)
    requires Going(c, start, v, attempt, index, tried, deleted) && index <= MAX_CONFLICTS
    requires c.temp in AfterOthers(v, c.others(attempt, BeforePublish)).files
    requires var w := AfterOthers(v, c.others(attempt, BeforePublish));
      && lost == Overwritten(w, c.Path(index), c.hardLinks, c.others(attempt, BeforeRename), c.faults(attempt), c.cleanupFails)
      && c.Path(index) !in w.files && (lost.Some? <==> !c.hardLinks && Takes(c.others(attempt, BeforeRename), c.Path(index)))
    ensures var w := AfterOthers(v, c.others(attempt, BeforePublish));
      Ended(c, start, Publication(w, c.temp, c.Path(index), c.hardLinks, c.others(attempt, BeforeRename)), Published(c.Path(index)), deleted, index, attempt, lost)
  {
    var w, change := AfterOthers(v, c.others(attempt, BeforePublish)), c.others(attempt, BeforeRename);
    Acts(c, start, v, attempt, index, tried, deleted);
    WhatIsLost(w, c.Path(index), c.hardLinks, change, c.faults(attempt), c.cleanupFails);
    PublicationKeeps(start, w, c.temp, c.base, deleted.Some?, c.Path(index), c.hardLinks, change, c.max, index);
    Settles(c, start, v, attempt, index, tried, deleted);
    hide Safe, AllTaken, AfterOthers, Publication, Overwritten, Removed, AfterRemoval, Candidate, LostAt, Judge, Takes;
  }

  /** The name is taken, and the base file is not looked at: on to the next variant. */
  lemma GoesOn(c: Call, start: View, v: View, attempt: nat, index: nat, tried: bool, deleted: Option<Node>)
    requires Going(c, start, v, attempt, index, tried, deleted) && index <= MAX_CONFLICTS && !(index == 0 && c.replaceBase && !tried)
    requires c.Path(index) in AfterOthers(v, c.others(attempt, BeforePublish)).files
    ensures Going(c, start, AfterOthers(v, c.others(attempt, BeforePublish)), attempt + 1, index + 1, tried, deleted)
  {
    Acts(c, start, v, attempt, index, tried, deleted);
    OneMoreTaken(AfterOthers(v, c.others(attempt, BeforePublish)), c.base, c.max, deleted.Some?, index);
    hide Safe, AllTaken, AfterOthers, Removed, AfterRemoval, Candidate, Judge, Honest;
  }

  lemma EndsFull(c: Call, start: View, v: View, attempt: nat, tried: bool, deleted: Option<Node>, last: nat)
    requires Going(c, start, v, attempt, MAX_CONFLICTS + 1, tried, deleted)
    ensures Ended(c, start, v, TooManyConflicts, deleted, MAX_CONFLICTS + 1, last, None)
  {
    hide Safe, AllTaken, AfterOthers, Removed, AfterRemoval, Candidate, Judge, Honest, Takes;
  }

  // ---------- the look at the base file ----------

  /** The first publication found the base name taken. */
  ghost predicate Looking(c: Call, start: View, v: View, attempt: nat, tried: bool, deleted: Option<Node>) {
    && Going(c, start, v, attempt, 0, tried, deleted) && c.replaceBase && !tried
    && c.base in AfterOthers(v, c.others(attempt, BeforePublish)).files && c.faults(attempt) != c.Refusal()
  }

  lemma LookKeeps(c: Call, start: View, v: View, attempt: nat, tried: bool, deleted: Option<Node>)
    requires Looking(c, start, v, attempt, tried, deleted)
    ensures attempt == 0 && v == start && AtCheck(start, c.others) == AfterOthers(AfterOthers(v, c.others(attempt, BeforePublish)), c.others(attempt, BeforeCheck))
    ensures var v1 := AtCheck(start, c.others);
      var lost := Removed(v1, c.base, c.contentLength, c.others(0, BeforeRemoval), c.faults(0));
      && lost == c.Deleted(start) && Safe(start, c.Cleared(start), c.temp, c.base, lost.Some?)
      && c.temp in c.Cleared(start).files && c.Cleared(start).files[c.temp] == start.files[c.temp] && c.temp != c.base
      && (lost.None? ==> AllTaken(c.Cleared(start), c.base, c.max, false, 1))
      && (c.Skips(start) ==> c.Cleared(start) == v1 && lost.None?)
  {
    var w, change := AfterOthers(v, c.others(0, BeforePublish)), c.others(0, BeforeCheck);
    Acts(c, start, v, attempt, 0, tried, deleted);
    OthersSafe(start, w, c.temp, c.base, false, change);
    OthersFiles(w, change, c.temp);
    OneMoreTaken(w, c.base, c.max, false, 0);
    StillTaken(w, change, c.base, c.max, false, 1);
    RemovalKeeps(start, AtCheck(start, c.others), c.temp, c.base, c.contentLength, c.max, c.others(0, BeforeRemoval), c.faults(0));
    hide Safe, AllTaken, AfterOthers, Removed, AfterRemoval, Candidate, Judge, Honest;
  }

  lemma LookFails(c: Call, start: View, v: View, attempt: nat, tried: bool, deleted: Option<Node>)
    requires Looking(c, start, v, attempt, tried, deleted) && c.faults(0) != NoFault && !c.Skips(start) && !c.Clears(start)
    ensures c.temp in start.files && Ended(c, start, c.Cleared(start), Failed, c.Deleted(start), 0, 0, None)
  {
    LookKeeps(c, start, v, attempt, tried, deleted);
    hide Safe, AllTaken, AfterOthers, Removed, AfterRemoval, Candidate, Judge, Honest, Takes;
  }

  lemma LookSkips(c: Call, start: View, v: View, attempt: nat, tried: bool, deleted: Option<Node>)
    requires Looking(c, start, v, attempt, tried, deleted) && c.Skips(start)
    ensures var w := c.Cleared(start);
      c.temp in start.files && Ended(c, start, if c.cleanupFails then w else w.(files := w.files - {c.temp}), Skipped(c.base), c.Deleted(start), 0, 0, None)
  {
    LookKeeps(c, start, v, attempt, tried, deleted);
    DropTempSafe(start, c.Cleared(start), c.temp, c.base, false);
    hide Safe, AllTaken, AfterOthers, Removed, AfterRemoval, Candidate, Judge, Honest, Takes;
  }

  lemma LookGoesOn(c: Call, start: View, v: View, attempt: nat, tried: bool, deleted: Option<Node>, removed: bool)
    requires Looking(c, start, v, attempt, tried, deleted) && !c.Skips(start)
    requires c.Clears(start) ==> removed
    requires c.Deleted(start).Some? ==> removed
    ensures Going(c, start, c.Cleared(start), 1, if removed then 0 else 1, true, c.Deleted(start))
  {
    LookKeeps(c, start, v, attempt, tried, deleted);
    NoneTaken(c.Cleared(start), c.base, c.max);
    hide Safe, AllTaken, AfterOthers, Removed, AfterRemoval, Candidate, Judge, Honest, Takes;
  }

  /** One directory. */
  class Dir {
    var files: map<string, Node>
    ghost var foreign: map<string, Node>
    ghost var gone: set<string>
    const hardLinks: bool

    ghost function V(): View
      reads this
    {
      View(files, foreign, gone)
    }

    constructor (files: map<string, Node>, hardLinks: bool)
      ensures this.files == files && foreign == map[] && gone == {} && this.hardLinks == hardLinks
    {
      this.files, foreign, gone, this.hardLinks := files, map[], {}, hardLinks;
    }

    method OthersAct(c: Change)
      modifies this
      ensures V() == AfterOthers(old(V()), c)
    {
      var left := files - c.gone;
      foreign := (foreign - c.gone) + (c.more - left.Keys);
      gone := gone + c.gone;
      files := c.more + left;
    }

    method ExistingFileState(path: string, contentLength: int) returns (state: FileState)
      ensures state == if path in files then Judge(files[path], contentLength) else Absent
    {
      if path !in files { return Absent; }
      if files[path].Folder? { return Directory; }
      if contentLength < 0 { return Partial; }
      if |files[path].data| != contentLength { return Partial; }
      return Complete;
    }

    /**
     * A hard link if the file system has them; otherwise an exclusive placeholder that the rename replaces. `change`
     * is what others do before the rename.
     */
    method PublishFile(temp: string, candidate: string, change: Change, fault: Fault, cleanupFails: bool)
      returns (handled: bool, ok: bool, ghost overwritten: Option<Node>)
      requires temp in files && temp != candidate && Spares(change, temp) && Honest(V())
      modifies this
      ensures handled <==> ok && candidate !in old(files)
      ensures handled ==> V() == Publication(old(V()), temp, candidate, hardLinks, change)
      ensures !handled && (ok || candidate in old(files)) ==> V() == old(V())
      ensures !ok && candidate !in old(files) ==> Unpublished(old(V()), temp, candidate, hardLinks, change, cleanupFails, V())
      ensures overwritten == Overwritten(old(V()), candidate, hardLinks, change, fault, cleanupFails)
      ensures handled ==> (overwritten.Some? <==> !hardLinks && Takes(change, candidate))
      ensures !ok ==> fault != NoFault || (candidate in change.more && change.more[candidate].Folder?)
      ensures candidate in old(files) ==> (ok <==> fault != if hardLinks then LinkFails else ReserveFails)
    {
      if candidate !in files { TakesPlace(V(), candidate, change); }
      hide AfterOthers, Honest, Takes, Reserved, RenameWorks;
      if hardLinks {
        if fault == LinkFails { return false, false, None; }
        if candidate in files { return false, true, None; }
        files := files[candidate := files[temp]];
        if fault == RemoveFails { return false, false, None; }
        files, foreign := files - {temp}, foreign - {candidate};
        return true, true, None;
      }
      if fault == ReserveFails { return false, false, None; }
      if candidate in files { return false, true, None; }
      handled, overwritten := ReserveAndRename(temp, candidate, change, fault, cleanupFails);
      ok := handled;
    }

    /** publishFile without hard links, under a free name. */
    method ReserveAndRename(temp: string, candidate: string, change: Change, fault: Fault, cleanupFails: bool)
      returns (ok: bool, ghost overwritten: Option<Node>)
      requires temp in files && temp != candidate && Spares(change, temp)
      requires candidate !in files && fault != ReserveFails
      modifies this
      ensures !ok ==> fault != NoFault || (candidate in change.more && change.more[candidate].Folder?)
      ensures var acted := AfterOthers(Reserved(old(V()), candidate), change);
        && (ok <==> RenameWorks(acted, candidate, fault))
        && V() == (if ok then Placed(acted, temp, candidate, old(files)[temp]) else if cleanupFails then acted else Without(acted, candidate))
      ensures overwritten == Overwritten(old(V()), candidate, false, change, fault, cleanupFails)
    {
      files := files[candidate := Regular("")];
      assert V() == Reserved(old(V()), candidate);
      OthersAct(change);
      hide AfterOthers, Reserved, Spares;
      assert temp in files && files[temp] == old(files)[temp] by { OthersFiles(Reserved(old(V()), candidate), change, temp); }
      overwritten := if candidate in foreign then Some(foreign[candidate]) else None;
      if fault == CloseFails || fault == RenameFails || (candidate in files && files[candidate].Folder?) {
        if cleanupFails { return false, None; }
        files, foreign := files - {candidate}, foreign - {candidate};
        return false, overwritten;
      }
      files, foreign := (files - {temp})[candidate := files[temp]], foreign - {candidate};
      return true, overwritten;
    }

    /** `change` is what others do between the check and the removal. */
    method RemoveIncompleteLocalTarget(path: string, contentLength: int, change: Change, fault: Fault)
      returns (complete: bool, removed: bool, deleted: Option<Node>, ok: bool)
      modifies this
      ensures deleted == Removed(old(V()), path, contentLength, change, fault)
      ensures V() == AfterRemoval(old(V()), path, contentLength, change, fault)
      ensures (deleted.Some? ==> removed && ok) && (fault == NoFault ==> ok) && (complete ==> ok && !removed)
      ensures var partial := fault != StatFails && path in old(files) && Judge(old(files)[path], contentLength) == Partial;
        (removed <==> partial && (path !in V().files || deleted.Some?)) && (ok <==> fault != StatFails && (partial ==> removed))
      ensures complete <==> fault != StatFails && path in old(files) && Judge(old(files)[path], contentLength) == Complete
    {
      hide AfterOthers, Judge;
      if fault == StatFails { return false, false, None, false; }
      var state := ExistingFileState(path, contentLength);
      if state != Partial { return state == Complete, false, None, true; }
      OthersAct(change);
      if path !in files { return false, true, None, true; }
      if fault == UnlinkFails { return false, false, None, false; }
      deleted := Some(files[path]);
      files, foreign := files - {path}, foreign - {path};
      return false, true, deleted, true;
    }

    /**
     * Whatever the others add and remove between the looks: on success the content is at the returned variant and
     * the temporary name is gone, all earlier variants were taken, and of the files that others left alone none was
     * touched except a deleted base file. A file of others is overwritten only in the place of our own placeholder,
     * which they removed before.
     */
    method PublishTempFile(temp: string, base: string, contentLength: int, max: int, replaceBase: bool, cleanupFails: bool,
                           others: (nat, Moment) -> Change, faults: nat -> Fault)
      returns (r: Outcome, deleted: Option<Node>, index: nat, ghost last: nat, ghost overwritten: Option<Node>)
      requires temp in files && files[temp].Regular? && NotTemp(temp, base, max)
      requires Honest(V()) && temp !in foreign && SparesTemp(others, temp)
      modifies this
      ensures var c := Call(temp, base, contentLength, max, replaceBase, hardLinks, cleanupFails, others, faults);
        Ended(c, old(V()), V(), r, deleted, index, last, overwritten)
    {
      hide Safe, AllTaken, Judge, AfterOthers, Candidate, NotTemp, Differs, Honest, Overwritten, Publication, Unpublished, Takes, Removed, AfterRemoval,
        Deletes, Going, Ended, LostAt;
      r, deleted, index, last, overwritten := Failed, None, 0, 0, None;
      var tried := false;
      var attempt := 0;
      ghost var c := Call(temp, base, contentLength, max, replaceBase, hardLinks, cleanupFails, others, faults);
      ghost var start := V();
      Begins(c, start);
      while index <= MAX_CONFLICTS
        decreases MAX_CONFLICTS + 1 - index, if tried then 0 else 1
        invariant index <= MAX_CONFLICTS + 1 && Going(c, start, V(), attempt, index, tried, deleted)
      {
        ghost var was := V();
        Acts(c, start, was, attempt, index, tried, deleted);
        OthersAct(others(attempt, BeforePublish));
        var candidate := Candidate(base, index, max);
        last := attempt;
        var handled, ok, lost := PublishFile(temp, candidate, others(attempt, BeforeRename), faults(attempt), cleanupFails);
        overwritten := lost;
        if !ok {
          EndsFailed(c, start, was, attempt, index, tried, deleted, V(), lost);
          return Failed, deleted, index, last, overwritten;
        }
        if handled {
          EndsPublished(c, start, was, attempt, index, tried, deleted, lost);
          return Published(candidate), deleted, index, last, overwritten;
        }
        if index == 0 && replaceBase && !tried {
          LookKeeps(c, start, was, attempt, tried, deleted);
          OthersAct(others(attempt, BeforeCheck));
          var complete, removed, gone, done := RemoveIncompleteLocalTarget(candidate, contentLength, others(attempt, BeforeRemoval), faults(attempt));
          if !done {
            LookFails(c, start, was, attempt, tried, deleted);
            return Failed, gone, index, last, None;
          }
          if complete {
            LookSkips(c, start, was, attempt, tried, deleted);
            if !cleanupFails { files := files - {temp}; }
            return Skipped(candidate), gone, index, last, None;
          }
          LookGoesOn(c, start, was, attempt, tried, deleted, removed);
          deleted, tried := gone, true;
          if !removed {
            index := index + 1;
          }
        } else {
          GoesOn(c, start, was, attempt, index, tried, deleted);
          index := index + 1;
        }
        attempt := attempt + 1;
      }
      EndsFull(c, start, V(), attempt, tried, deleted, last);
      return TooManyConflicts, deleted, index, last, None;
    }

    /**
     * The decisions around a download. `owner` says whether the file at the base name belongs to this medium (None:
     * nobody asks); `data` is what the server sent until the transfer was over or broke off. A file of another
     * medium is neither taken for this one nor changed, and the temporary file stays only if its removal fails. A
     * transfer that is over does not fail unless something goes wrong in an attempt to publish it, and a base name that
     * is free, or is cleared by the first attempt, is the one it gets.
     */
    method DownloadWithOptions(temp: string, base: string, data: string, complete: bool, contentLength: int, max: int,
                               owner: Option<bool>, cleanupFails: bool, others: (nat, Moment) -> Change, faults: nat -> Fault)
      returns (r: Outcome, deleted: Option<Node>, ghost overwritten: Option<Node>)
      requires temp !in files && NotTemp(temp, base, max)
      requires Honest(V()) && SparesTemp(others, temp)
      modifies this
      ensures var c := Call(temp, base, contentLength, max, ReplacesBase(old(V()), base, contentLength, owner), hardLinks, cleanupFails, others, faults);
        Downloaded(c, old(V()), data, complete, owner, V(), r, deleted, overwritten)
    {
      hide Safe, AllTaken, Candidate, NotTemp, Differs, Ended, Downloaded;
      overwritten := None;
      ghost var before := V();
      ghost var c := Call(temp, base, contentLength, max, ReplacesBase(before, base, contentLength, owner), hardLinks, cleanupFails, others, faults);
      BaseVariant(temp, base, max);
      var state := ExistingFileState(base, contentLength);
      var replaceBase := state == Partial;
      if state == Complete {
        if owner != Some(false) {
          DownloadSkips(c, before, data, complete, owner);
          return Skipped(base), None, None;
        }
      } else if replaceBase && owner == Some(false) {
        replaceBase := false;
      }
      files := files[temp := Regular(data)];
      if !complete {
        DownloadBreaks(c, before, data, owner);
        if !cleanupFails { files := files - {temp}; }
        return Failed, None, None;
      }
      var index;
      ghost var last;
      TempSafe(before, temp, Regular(data), base);
      r, deleted, index, last, overwritten := PublishTempFile(temp, base, contentLength, max, replaceBase, cleanupFails, others, faults);
      DownloadEnds(c, before, data, owner, V(), r, deleted, index, last, overwritten);
      if !r.Published? && !r.Skipped? && !cleanupFails {
        files := files - {temp};
      }
    }
  }

  // ---------- the whole download ----------

  ghost predicate Downloaded(c: Call, start: View, data: string, complete: bool, owner: Option<bool>,
                             v: View, r: Outcome, deleted: Option<Node>, lost: Option<Node>)
  {
    Kept(c, start, complete, owner, v, r, deleted, lost) && Result(c, start, data, complete, owner, v, r)
  }

  /** Nothing is touched but the base file that is deleted, and the temporary file goes. */
  ghost predicate Kept(c: Call, start: View, complete: bool, owner: Option<bool>, v: View, r: Outcome, deleted: Option<Node>, lost: Option<Node>) {
    && Honest(v) && Safe(start, v, c.temp, c.base, deleted.Some?) && (!c.cleanupFails || r.Published? ==> c.temp !in v.files)
    && deleted == (if complete then c.Deleted(start) else None)
    && (deleted.Some? && c.base !in start.foreign ==> (c.base in AtRemoval(start, c.others).foreign <==> TakenAway(c.others, c.base)))
    && (lost.Some? ==> complete && !c.hardLinks && LostToUs(lost, c.base, c.max, c.others))
    && (owner == Some(false) && c.base in start.files && c.base !in v.gone ==> c.base in v.files && v.files[c.base] == start.files[c.base])
  }

  /** A whole file at the base name is taken; otherwise a transfer that is over succeeds if nothing goes wrong. */
  ghost predicate Result(c: Call, start: View, data: string, complete: bool, owner: Option<bool>, v: View, r: Outcome) {
    && (r.Published? ==> complete && r.path in v.files && v.files[r.path] == Regular(data))
    && (r.Skipped? ==> r.path == c.base && c.base in v.files && Judge(v.files[c.base], c.contentLength) == Complete && owner != Some(false))
    && if Has(start, c.base, c.contentLength, owner) then r == Skipped(c.base) && v == start
       else if !complete then r == Failed && (!c.cleanupFails ==> v == start)
       else
         && (r.Failed? ==> Troubled(c)) && (r.Skipped? <==> c.Skips(start))
         && (c.base !in c.First(start).files && !c.Trouble(0, 0) ==> r == Published(c.base))
         && (c.FreeAgain(start) && !c.Trouble(1, 0) ==> r == Published(c.base))
  }

  /** A call of this directory's downloader: nothing of the temporary file is there yet. */
  ghost predicate Fresh(c: Call, start: View, owner: Option<bool>) {
    && c.temp !in start.files && Honest(start) && c.temp != c.base
    && c.replaceBase == ReplacesBase(start, c.base, c.contentLength, owner)
  }

  lemma DownloadSkips(c: Call, start: View, data: string, complete: bool, owner: Option<bool>)
    requires Fresh(c, start, owner) && Has(start, c.base, c.contentLength, owner)
    ensures Downloaded(c, start, data, complete, owner, start, Skipped(c.base), None, None)
  {
    StartSafe(start, c.temp, c.base);
    hide Safe, AfterOthers;
  }

  lemma DownloadBreaks(c: Call, start: View, data: string, owner: Option<bool>)
    requires Fresh(c, start, owner) && !Has(start, c.base, c.contentLength, owner)
    ensures var v := start.(files := start.files[c.temp := Regular(data)]);
      Downloaded(c, start, data, false, owner, if c.cleanupFails then v else v.(files := v.files - {c.temp}), Failed, None, None)
  {
    StartSafe(start, c.temp, c.base);
    TempSafe(start, c.temp, Regular(data), c.base);
    hide Safe, AfterOthers;
  }

  lemma DownloadEnds(c: Call, start: View, data: string, owner: Option<bool>, v: View, r: Outcome, deleted: Option<Node>,
                     index: nat, last: nat, lost: Option<Node>)
    requires Fresh(c, start, owner) && !Has(start, c.base, c.contentLength, owner)
    requires Ended(c, start.(files := start.files[c.temp := Regular(data)]), v, r, deleted, index, last, lost)
    ensures Downloaded(c, start, data, true, owner, if r.Published? || r.Skipped? || c.cleanupFails then v else v.(files := v.files - {c.temp}), r, deleted, lost)
  {
    var w := if r.Published? || r.Skipped? || c.cleanupFails then v else v.(files := v.files - {c.temp});
    Concludes(start, c, Regular(data), v, r, deleted, index, last, lost);
    EndsKept(c, start, owner, v, w, r, deleted, lost);
    EndsResult(c, start, data, owner, v, w, r);
    hide *;
    hide Kept, Result;
  }

  lemma EndsKept(c: Call, start: View, owner: Option<bool>, v: View, w: View, r: Outcome, deleted: Option<Node>, lost: Option<Node>)
    requires Fresh(c, start, owner) && deleted == c.Deleted(start) && w in {v, v.(files := v.files - {c.temp})}
    requires Honest(w) && Safe(start, w, c.temp, c.base, deleted.Some?) && (!c.cleanupFails || r.Published? ==> c.temp !in w.files)
    requires lost.Some? ==> !c.hardLinks && LostToUs(lost, c.base, c.max, c.others)
    requires deleted.None? && c.base in start.files && c.base !in v.gone ==> c.base in v.files && v.files[c.base] == start.files[c.base]
    ensures Kept(c, start, true, owner, w, r, deleted, lost)
  {
    if deleted.Some? && c.base !in start.foreign {
      NewerDeletedIff(start, c.base, c.contentLength, c.replaceBase, c.hardLinks, c.others, c.faults(0));
    }
    hide Safe, AfterOthers, Judge, LostToUs, AtRemoval, Removed, TakenAway, Honest;
  }

  lemma EndsResult(c: Call, start: View, data: string, owner: Option<bool>, v: View, w: View, r: Outcome)
    requires Fresh(c, start, owner) && !Has(start, c.base, c.contentLength, owner) && w in {v, v.(files := v.files - {c.temp})}
    requires (r.Skipped? <==> c.Skips(start)) && (r.Failed? ==> Troubled(c))
    requires c.base !in c.First(start).files && !c.Trouble(0, 0) ==> r == Published(c.base)
    requires c.FreeAgain(start) && !c.Trouble(1, 0) ==> r == Published(c.base)
    requires r.Published? ==> r.path in v.files && v.files[r.path] == Regular(data) && w == v
    requires r.Skipped? ==> r.path == c.base && c.base in v.files && Judge(v.files[c.base], c.contentLength) == Complete
    ensures Result(c, start, data, true, owner, w, r)
  {
    hide AfterOthers, Judge, AtRemoval, Removed, AfterRemoval, Honest, Troubled;
  }

  /** What a publication leaves behind, seen from before the temporary file was there. */
  lemma Concludes(a: View, c: Call, node: Node, v: View, r: Outcome, deleted: Option<Node>, index: nat, last: nat, lost: Option<Node>)
    requires c.temp !in a.files && c.temp != c.base && Ended(c, a.(files := a.files[c.temp := node]), v, r, deleted, index, last, lost)
    ensures deleted == c.Deleted(a) && (r.Skipped? <==> c.Skips(a)) && (r.Failed? ==> Troubled(c))
    ensures c.base !in c.First(a).files && !c.Trouble(0, 0) ==> r == Published(c.base)
    ensures c.FreeAgain(a) && !c.Trouble(1, 0) ==> r == Published(c.base)
    ensures Safe(a, v, c.temp, c.base, deleted.Some?) && Honest(v)
    ensures var w := v.(files := v.files - {c.temp}); Safe(a, w, c.temp, c.base, deleted.Some?) && Honest(w)
    ensures deleted.None? && c.base in a.files && c.base !in v.gone ==> c.base in v.files && v.files[c.base] == a.files[c.base]
    ensures lost.Some? ==> !c.hardLinks && LostToUs(lost, c.base, c.max, c.others)
    ensures r.Published? ==> r.path in v.files && v.files[r.path] == node && c.temp !in v.files
    ensures r.Skipped? ==> r.path == c.base && c.base in v.files && Judge(v.files[c.base], c.contentLength) == Complete
                           && (c.temp in v.files <==> c.cleanupFails)
  {
    hide Safe, AllTaken, Candidate, AfterOthers, Judge, Removed, AfterRemoval, Takes, Honest, Deletes;
    if r.Failed? { assert c.Trouble(last, index); }
    if lost.Some? { assert LostAt(lost, Candidate(c.base, index, c.max), false, c.others(last, BeforeRename)); }
    TempAside(a, c, node);
    SafeFromBefore(a, v, c.temp, node, c.base, deleted.Some?);
    DropTempSafe(a, v, c.temp, c.base, deleted.Some?);
    SafeHonest(a, v, c.temp, c.base, deleted.Some?);
    SafeHonest(a, v.(files := v.files - {c.temp}), c.temp, c.base, deleted.Some?);
    if deleted.None? { BaseKept(a, v, c.temp, c.base); }
  }

  lemma TempSafe(a: View, temp: string, node: Node, base: string)
    requires Honest(a) && temp !in a.files
    ensures Safe(a, a.(files := a.files[temp := node]), temp, base, false) && Honest(a.(files := a.files[temp := node]))
    ensures a.files[temp := node] - {temp} == a.files
  {
    var b := a.(files := a.files[temp := node]);
    forall p ensures SafeAt(a, b, temp, base, false, p) { }
  }

  /** Our temporary file makes no difference to what happens to the base file. */
  lemma TempAside(a: View, c: Call, node: Node)
    requires c.temp != c.base
    ensures var b := a.(files := a.files[c.temp := node]);
      && c.Deleted(b) == c.Deleted(a) && (c.Skips(b) <==> c.Skips(a)) && (c.FreeAgain(b) <==> c.FreeAgain(a))
      && (c.base in c.First(b).files <==> c.base in c.First(a).files)
  {
    var b := a.(files := a.files[c.temp := node]);
    SameBase(a, b, c.base, c.others(0, BeforePublish));
    SameBase(c.First(a), c.First(b), c.base, c.others(0, BeforeCheck));
    SameRemoval(AtCheck(a, c.others), AtCheck(b, c.others), c);
    SameBase(c.Cleared(a), c.Cleared(b), c.base, c.others(1, BeforePublish));
    hide AfterOthers, Judge, Removed, AfterRemoval;
  }

  lemma SameRemoval(a: View, b: View, c: Call)
    requires SameAt(a, b, c.base)
    ensures Removed(a, c.base, c.contentLength, c.others(0, BeforeRemoval), c.faults(0)) == Removed(b, c.base, c.contentLength, c.others(0, BeforeRemoval), c.faults(0))
    ensures SameAt(AfterRemoval(a, c.base, c.contentLength, c.others(0, BeforeRemoval), c.faults(0)),
                   AfterRemoval(b, c.base, c.contentLength, c.others(0, BeforeRemoval), c.faults(0)), c.base)
  {
    SameBase(a, b, c.base, c.others(0, BeforeRemoval));
    hide AfterOthers, Judge;
  }

  predicate SameAt(a: View, b: View, p: string) {
    (p in a.files <==> p in b.files) && (p in a.files ==> a.files[p] == b.files[p])
  }

  lemma SameBase(a: View, b: View, base: string, c: Change)
    requires SameAt(a, b, base)
    ensures SameAt(AfterOthers(a, c), AfterOthers(b, c), base)
  {
  }

  ghost predicate Quiet(others: (nat, Moment) -> Change) {
    forall n, m {:trigger others(n, m)} :: others(n, m) == Change({}, map[])
  }

  /** Left alone, a call replaces an incomplete base file by what it has, in its second attempt. */
  lemma QuietReplaces(c: Call, start: View)
    requires Quiet(c.others) && c.faults(0) == NoFault && c.replaceBase && c.base in start.files
    requires Judge(start.files[c.base], c.contentLength) == Partial
    ensures c.FreeAgain(start) && c.Deleted(start) == Some(start.files[c.base])
  {
    QuietSame(start);
    QuietSame(Without(start, c.base));
    hide AfterOthers, Judge;
  }

  /** What the first look at the base name decides: a file of the expected length is taken, a file of another or an
      unknown length is replaced, both only if it is not known to belong to another medium; a folder is neither. */
  lemma FirstLookDecides(start: View, base: string, contentLength: int, owner: Option<bool>)
    requires base in start.files
    ensures var node := start.files[base];
      && (Has(start, base, contentLength, owner) <==>
            node.Regular? && contentLength >= 0 && |node.data| == contentLength && owner != Some(false))
      && (ReplacesBase(start, base, contentLength, owner) <==>
            node.Regular? && !(contentLength >= 0 && |node.data| == contentLength) && owner != Some(false))
  {
  }

  lemma QuietSame(v: View)
    ensures AfterOthers(v, Change({}, map[])) == v
  {
    assert map[] + (v.files - {}) == v.files;
    assert (v.foreign - {}) + (map[] - (v.files - {}).Keys) == v.foreign;
  }

  lemma SafeFromBefore(a: View, b: View, temp: string, node: Node, base: string, deleted: bool)
    requires Safe(a.(files := a.files[temp := node]), b, temp, base, deleted)
    ensures Safe(a, b, temp, base, deleted)
  {
    var a2 := a.(files := a.files[temp := node]);
    forall p ensures SafeAt(a, b, temp, base, deleted, p) { assert SafeAt(a2, b, temp, base, deleted, p); }
  }

  lemma BaseKept(a: View, b: View, temp: string, base: string)
    requires Safe(a, b, temp, base, false) && base != temp
    ensures base in a.files && base !in b.gone ==> base in b.files && b.files[base] == a.files[base]
  {
    assert SafeAt(a, b, temp, base, false, base);
  }

  lemma NoneTaken(v: View, base: string, max: int)
    ensures AllTaken(v, base, max, false, 0) && AllTaken(v, base, max, true, 0)
  {
  }

  lemma OthersFiles(v: View, c: Change, temp: string)
    requires temp in v.files && Spares(c, temp)
    ensures temp in AfterOthers(v, c).files && AfterOthers(v, c).files[temp] == v.files[temp]
  {
  }

  lemma WasFree(a: View, b: View, temp: string, base: string, deleted: bool, path: string)
    requires Safe(a, b, temp, base, deleted) && path !in b.files && path != temp
    ensures path in a.files ==> path in b.gone || (path == base && deleted)
  {
    assert SafeAt(a, b, temp, base, deleted, path);
  }

  lemma RemovalKeeps(a: View, v: View, temp: string, base: string, contentLength: int, max: int, change: Change, fault: Fault)
    requires Safe(a, v, temp, base, false) && temp != base && Spares(change, temp) && temp in v.files
    requires AllTaken(v, base, max, false, 1)
    ensures var w, deleted := AfterRemoval(v, base, contentLength, change, fault), Removed(v, base, contentLength, change, fault);
      && Safe(a, w, temp, base, deleted.Some?) && temp in w.files && w.files[temp] == v.files[temp]
      && (deleted.None? ==> AllTaken(w, base, max, false, 1))
      && (base in v.files && Judge(v.files[base], contentLength) == Complete ==> w == v && deleted.None?)
  {
    OthersSafe(a, v, temp, base, false, change);
    OthersFiles(v, change, temp);
    RemoveSafe(a, AfterOthers(v, change), temp, base);
    StillTaken(v, change, base, max, false, 1);
    hide Safe, AllTaken, AfterOthers, Judge;
  }

  lemma UnpublishedKeeps(a: View, v: View, temp: string, base: string, deleted: bool, path: string, hardLinks: bool,
                         change: Change, cleanupFails: bool, w: View)
    requires Safe(a, v, temp, base, deleted) && path !in v.files && path != temp && temp != base && Spares(change, temp)
    requires temp in v.files && Unpublished(v, temp, path, hardLinks, change, cleanupFails, w)
    ensures Safe(a, w, temp, base, deleted) && temp in w.files && w.files[temp] == v.files[temp]
  {
    PublishSafe(a, v, temp, base, deleted, path, v.files[temp], true);
    ReservedSafe(a, v, temp, base, deleted, path, change, v.files[temp]);
    hide Safe;
  }

  lemma PublicationKeeps(a: View, v: View, temp: string, base: string, deleted: bool, path: string, hardLinks: bool,
                         change: Change, max: int, index: nat)
    requires Safe(a, v, temp, base, deleted) && path !in v.files && path != temp && temp != base && Spares(change, temp)
    requires temp in v.files && AllTaken(v, base, max, deleted, index) && NotTemp(temp, base, max) && index <= MAX_CONFLICTS
    ensures var w := Publication(v, temp, path, hardLinks, change);
      && Safe(a, w, temp, base, deleted) && AllTaken(w, base, max, deleted, index)
      && path in w.files && w.files[path] == v.files[temp] && temp !in w.files
      && (path in a.files ==> path in w.gone || (path == base && deleted))
  {
    var acted := AfterOthers(Reserved(v, path), change);
    PlacedSafe(a, v, temp, base, deleted, path, v.files[temp]);
    ReservedSafe(a, v, temp, base, deleted, path, change, v.files[temp]);
    WasFree(a, v, temp, base, deleted, path);
    TakenAfterPublish(v, temp, path, v.files[temp], base, max, deleted, index);
    StillTaken(Reserved(v, path), change, base, max, deleted, index);
    TakenAfterPublish(acted, temp, path, v.files[temp], base, max, deleted, index);
    hide Safe, AllTaken, Candidate, NotTemp;
  }

  // ---------- giving up means a full directory ----------

  ghost function Variants(base: string, max: int, n: nat): set<string> {
    if n == 0 then {} else Variants(base, max, n - 1) + {Candidate(base, n, max)}
  }

  lemma {:induction false} VariantFrom(base: string, max: int, n: nat, v: string) returns (i: nat)
    requires v in Variants(base, max, n)
    ensures 1 <= i <= n && v == Candidate(base, i, max)
  {
    hide Candidate;
    if v == Candidate(base, n, max) { return n; }
    i := VariantFrom(base, max, n - 1, v);
  }

  lemma {:induction false} VariantCount(base: string, max: int, n: nat)
    requires n <= MAX_CONFLICTS && NoBracketLast(base)
    ensures |Variants(base, max, n)| == n
  {
    hide Candidate;
    if n > 0 {
      VariantCount(base, max, n - 1);
      if Candidate(base, n, max) in Variants(base, max, n - 1) {
        var i := VariantFrom(base, max, n - 1, Candidate(base, n, max));
        CandidatesDiffer(base, i, n, max);
      }
    }
  }

  /** Giving up is only possible if nearly all 10000 variants (one of them may be the base) were
      there or had been there. */
  lemma GivingUpMeansFull(base: string, max: int, deleted: bool, v: View)
    requires NoBracketLast(base)
    requires AllTaken(v, base, max, deleted, MAX_CONFLICTS + 1)
    ensures |v.files.Keys + v.gone| >= MAX_CONFLICTS - 1
  {
    hide Candidate, Variants;
    var names := v.files.Keys + v.gone;
    var vs := Variants(base, max, MAX_CONFLICTS);
    VariantCount(base, max, MAX_CONFLICTS);
    forall c | c in vs - {base} ensures c in names {
      var i := VariantFrom(base, max, MAX_CONFLICTS, c);
      assert Taken(v, base, max, deleted, i);
    }
    assert names == (vs - {base}) + (names - (vs - {base}));
    assert vs <= (vs - {base}) + {base};
    Bigger(vs, vs - {base}, base);
  }

  lemma Bigger(vs: set<string>, us: set<string>, base: string)
    requires us == vs - {base}
    ensures |us| >= |vs| - 1
  {
    assert vs == us || vs == us + {base};
  }
}
