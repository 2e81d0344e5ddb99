/** Concurrent downloads into one library: key locks, copies, equal content. */
module MediaStore {

  /** What the program computes but this model does not look into: the identity of a URL and the content hash. */
  datatype Env = Env(key: string -> string, hash: string -> string)

  datatype Id = Id(tweet: string, url: string)

  datatype Rec = Rec(hash: string, path: string)

  /** Where a call of downloadMedia stands. */
  datatype Pc =
    | Waiting
    | Locked
    | Copying(copy: Id, rec: Rec)
    | Fetching
    | Saved(own: Rec)
    | HashLocked(own: Rec)
    | Dropping(own: Rec, copy: Id, rec: Rec)
    | Linking(hash: string, copy: Id, rec: Rec)
    | Recording(own: Rec)

  datatype Call = Call(id: Id, pc: Pc)

  datatype Library = Library(files: map<string, string>, recs: map<Id, Rec>, calls: map<nat, Call>)

  datatype Op =
    | Begin(p: nat, id: Id)
    | LockKey(p: nat)
    | Skip(p: nat)
    | FindCopy(p: nat, copy: Id)
    | NoCopy(p: nat)
    | RecordCopy(p: nat)
    | Save(p: nat, path: string, content: string)
    | SaveOver(p: nat, path: string, content: string)
    | KeepExisting(p: nat, path: string)
    | LockHash(p: nat)
    | FindSame(p: nat, copy: Id)
    | NoSame(p: nat)
    | Drop(p: nat)
    | RecordLink(p: nat)
    | RecordOwn(p: nat)
    | Fail(p: nat)

  // ---------- locks and paths a call holds ----------

  predicate HoldsKey(pc: Pc) { !pc.Waiting? }

  predicate HoldsHash(pc: Pc) { pc.HashLocked? || pc.Dropping? || pc.Linking? || pc.Recording? }

  function HashOf(pc: Pc): string
    requires HoldsHash(pc)
  {
    if pc.Linking? then pc.hash else pc.own.hash
  }

  predicate HasOwn(pc: Pc) { pc.Saved? || pc.HashLocked? || pc.Dropping? || pc.Recording? }

  predicate FreeOfKey(e: Env, s: Library, p: nat, q: nat)
    requires p in s.calls
  {
    q in s.calls && q != p && HoldsKey(s.calls[q].pc) ==> e.key(s.calls[q].id.url) != e.key(s.calls[p].id.url)
  }

  predicate FreeOfHash(s: Library, p: nat, q: nat, hash: string) {
    q in s.calls && q != p && HoldsHash(s.calls[q].pc) ==> HashOf(s.calls[q].pc) != hash
  }

  predicate Archived(s: Library, r: Id) { r in s.recs && s.recs[r].path in s.files }

  predicate CopyOf(e: Env, s: Library, r: Id, key: string) { Archived(s, r) && e.key(r.url) == key }

  predicate SameContent(s: Library, r: Id, own: Rec) { Archived(s, r) && s.recs[r].hash == own.hash && s.recs[r].path != own.path }

  /** Only a file that this very record names counts as the caller's own. */
  predicate Owns(s: Library, id: Id, path: string) { id in s.recs && s.recs[id].path == path }

  predicate At(s: Library, p: nat) { p in s.calls }

  ghost predicate Allowed(e: Env, s: Library, op: Op) {
    match op
    case Begin(p, id) => p !in s.calls && e.key(id.url) != ""
    case LockKey(p) => At(s, p) && s.calls[p].pc.Waiting? && forall q {:trigger FreeOfKey(e, s, p, q)} :: FreeOfKey(e, s, p, q)
    case Skip(p) => At(s, p) && s.calls[p].pc.Locked? && Archived(s, s.calls[p].id)
    case FindCopy(p, c) => At(s, p) && s.calls[p].pc.Locked? && !Archived(s, s.calls[p].id) && CopyOf(e, s, c, e.key(s.calls[p].id.url))
    case NoCopy(p) => At(s, p) && s.calls[p].pc.Locked? && !Archived(s, s.calls[p].id)
                      && forall c {:trigger CopyOf(e, s, c, e.key(s.calls[p].id.url))} :: !CopyOf(e, s, c, e.key(s.calls[p].id.url))
    case RecordCopy(p) => At(s, p) && s.calls[p].pc.Copying?
    case Save(p, path, _) => At(s, p) && s.calls[p].pc.Fetching? && path !in s.files
    case SaveOver(p, path, _) => At(s, p) && s.calls[p].pc.Fetching? && path in s.files && Owns(s, s.calls[p].id, path)
    case KeepExisting(p, path) => At(s, p) && s.calls[p].pc.Fetching? && path in s.files && Owns(s, s.calls[p].id, path)
    case LockHash(p) => At(s, p) && s.calls[p].pc.Saved?
                        && forall q {:trigger FreeOfHash(s, p, q, s.calls[p].pc.own.hash)} :: FreeOfHash(s, p, q, s.calls[p].pc.own.hash)
    case FindSame(p, c) => At(s, p) && s.calls[p].pc.HashLocked? && SameContent(s, c, s.calls[p].pc.own)
    case NoSame(p) => At(s, p) && s.calls[p].pc.HashLocked?
                      && forall c {:trigger SameContent(s, c, s.calls[p].pc.own)} :: !SameContent(s, c, s.calls[p].pc.own)
    case Drop(p) => At(s, p) && s.calls[p].pc.Dropping?
    case RecordLink(p) => At(s, p) && s.calls[p].pc.Linking?
    case RecordOwn(p) => At(s, p) && s.calls[p].pc.Recording?
    case Fail(p) => At(s, p)
  }

  function Moved(s: Library, p: nat, pc: Pc): Library
    requires p in s.calls
  {
    s.(calls := s.calls[p := s.calls[p].(pc := pc)])
  }

  /** CreateDownload, then the call returns and its locks are free. */
  function Recorded(s: Library, p: nat, r: Rec): Library
    requires p in s.calls
  {
    s.(recs := s.recs[s.calls[p].id := r], calls := s.calls - {p})
  }

  ghost function Step(e: Env, s: Library, op: Op): Library
    requires Allowed(e, s, op)
  {
    match op
    case Begin(p, id) => s.(calls := s.calls[p := Call(id, Waiting)])
    case LockKey(p) => Moved(s, p, Locked)
    case Skip(p) => s.(calls := s.calls - {p})
    case FindCopy(p, c) => Moved(s, p, Copying(c, s.recs[c]))
    case NoCopy(p) => Moved(s, p, Fetching)
    case RecordCopy(p) => Recorded(s, p, s.calls[p].pc.rec)
    case Save(p, path, content) => Moved(s.(files := s.files[path := content]), p, Saved(Rec(e.hash(content), path)))
    case SaveOver(p, path, content) => Moved(s.(files := s.files[path := content]), p, Saved(Rec(e.hash(content), path)))
    case KeepExisting(p, path) => Recorded(s, p, Rec(e.hash(s.files[path]), path))
    case LockHash(p) => Moved(s, p, HashLocked(s.calls[p].pc.own))
    case FindSame(p, c) => Moved(s, p, Dropping(s.calls[p].pc.own, c, s.recs[c]))
    case NoSame(p) => Moved(s, p, Recording(s.calls[p].pc.own))
    case Drop(p) =>
      var pc := s.calls[p].pc;
      Moved(s.(files := s.files - {pc.own.path}), p, Linking(pc.own.hash, pc.copy, pc.rec))
    case RecordLink(p) => Recorded(s, p, Rec(s.calls[p].pc.hash, s.calls[p].pc.rec.path))
    case RecordOwn(p) => Recorded(s, p, s.calls[p].pc.own)
    case Fail(p) => s.(calls := s.calls - {p})
  }

  // ---------- the invariant ----------

  /** A record names an existing file with the recorded hash. */
  predicate RecOk(e: Env, s: Library, r: Id) {
    r in s.recs ==> s.recs[r].path in s.files && e.hash(s.files[s.recs[r].path]) == s.recs[r].hash
  }

  /** One path per media key, and one per content. */
  predicate PairOk(e: Env, s: Library, r: Id, t: Id) {
    r in s.recs && t in s.recs && (e.key(r.url) == e.key(t.url) || s.recs[r].hash == s.recs[t].hash) ==> s.recs[r].path == s.recs[t].path
  }

  /** A file that was saved but not recorded yet. */
  predicate OwnOk(e: Env, s: Library, own: Rec) {
    own.path in s.files && e.hash(s.files[own.path]) == own.hash
  }

  /** How one record stands to one call: the media is still missing, the saved file unrecorded, its content new. */
  predicate MeetsRec(e: Env, s: Library, p: nat, r: Id) {
    p in s.calls && r in s.recs ==>
      (var c := s.calls[p];
       && (!(c.pc.Waiting? || c.pc.Locked? || c.pc.Copying?) ==> e.key(r.url) != e.key(c.id.url))
       && (HasOwn(c.pc) ==> s.recs[r].path != c.pc.own.path)
       && (c.pc.Recording? ==> s.recs[r].hash != c.pc.own.hash))
  }

  predicate CallOk(e: Env, s: Library, p: nat) {
    p in s.calls ==>
      (var c := s.calls[p];
       && (HasOwn(c.pc) ==> OwnOk(e, s, c.pc.own))
       && (c.pc.Copying? ==> c.id !in s.recs && e.key(c.pc.copy.url) == e.key(c.id.url))
       && (c.pc.Copying? || c.pc.Dropping? || c.pc.Linking? ==> c.pc.copy in s.recs && s.recs[c.pc.copy] == c.pc.rec)
       && (c.pc.Dropping? ==> c.pc.rec.hash == c.pc.own.hash)
       && (c.pc.Linking? ==> c.pc.rec.hash == c.pc.hash))
  }

  /** Two calls never hold the same lock nor the same new file. */
  predicate Apart(e: Env, s: Library, p: nat, q: nat) {
    p in s.calls && q in s.calls && p != q ==>
      (var a, b := s.calls[p], s.calls[q];
       && (HoldsKey(a.pc) && HoldsKey(b.pc) ==> e.key(a.id.url) != e.key(b.id.url))
       && (HoldsHash(a.pc) && HoldsHash(b.pc) ==> HashOf(a.pc) != HashOf(b.pc))
       && (HasOwn(a.pc) && HasOwn(b.pc) ==> a.pc.own.path != b.pc.own.path))
  }

  ghost predicate RecsOk(e: Env, s: Library) { forall r {:trigger RecOk(e, s, r)} :: RecOk(e, s, r) }
  ghost predicate PairsOk(e: Env, s: Library) { forall r, t {:trigger PairOk(e, s, r, t)} :: PairOk(e, s, r, t) }
  ghost predicate Meets(e: Env, s: Library) { forall p, r {:trigger MeetsRec(e, s, p, r)} :: MeetsRec(e, s, p, r) }
  ghost predicate CallsOk(e: Env, s: Library) { forall p {:trigger CallOk(e, s, p)} :: CallOk(e, s, p) }
  ghost predicate AllApart(e: Env, s: Library) { forall p, q {:trigger Apart(e, s, p, q)} :: Apart(e, s, p, q) }

  ghost predicate Inv(e: Env, s: Library) {
    RecsOk(e, s) && PairsOk(e, s) && Meets(e, s) && CallsOk(e, s) && AllApart(e, s)
  }

  // ---------- steps that only move a call ----------

  /** The conditions on a new position of call `p`. */
  ghost predicate MayBeAt(e: Env, s: Library, p: nat, c: Call) {
    var t := s.(calls := s.calls[p := c]);
    && CallOk(e, t, p)
    && (forall r {:trigger MeetsRec(e, t, p, r)} :: MeetsRec(e, t, p, r))
    && (forall q {:trigger Apart(e, t, p, q)} {:trigger Apart(e, t, q, p)} :: Apart(e, t, p, q) && Apart(e, t, q, p))
  }

  lemma MoveKeeps(e: Env, s: Library, p: nat, c: Call)
    requires Inv(e, s) && MayBeAt(e, s, p, c)
    ensures Inv(e, s.(calls := s.calls[p := c]))
  {
    var t := s.(calls := s.calls[p := c]);
    forall r ensures RecOk(e, t, r) { assert RecOk(e, s, r); }
    forall r, u ensures PairOk(e, t, r, u) { assert PairOk(e, s, r, u); }
    forall q, r ensures MeetsRec(e, t, q, r) { assert MeetsRec(e, s, q, r); }
    forall q ensures CallOk(e, t, q) { assert CallOk(e, s, q); }
    forall q, u ensures Apart(e, t, q, u) { assert Apart(e, s, q, u); }
  }

  lemma LeaveKeeps(e: Env, s: Library, p: nat)
    requires Inv(e, s)
    ensures Inv(e, s.(calls := s.calls - {p}))
  {
    var t := s.(calls := s.calls - {p});
    forall r ensures RecOk(e, t, r) { assert RecOk(e, s, r); }
    forall r, u ensures PairOk(e, t, r, u) { assert PairOk(e, s, r, u); }
    forall q, r ensures MeetsRec(e, t, q, r) { assert MeetsRec(e, s, q, r); }
    forall q ensures CallOk(e, t, q) { assert CallOk(e, s, q); }
    forall q, u ensures Apart(e, t, q, u) { assert Apart(e, s, q, u); }
  }

  // ---------- steps on the files ----------

  lemma AddFileKeeps(e: Env, s: Library, path: string, content: string)
    requires Inv(e, s) && path !in s.files
    ensures Inv(e, s.(files := s.files[path := content]))
  {
    var t := s.(files := s.files[path := content]);
    forall r ensures RecOk(e, t, r) { assert RecOk(e, s, r); }
    forall r, u ensures PairOk(e, t, r, u) { assert PairOk(e, s, r, u); }
    forall q, r ensures MeetsRec(e, t, q, r) { assert MeetsRec(e, s, q, r); }
    forall q ensures CallOk(e, t, q) { assert CallOk(e, s, q); }
    forall q, u ensures Apart(e, t, q, u) { assert Apart(e, s, q, u); }
  }

  /** Nothing but the call itself knows of the file it saved. */
  lemma DropFileKeeps(e: Env, s: Library, p: nat)
    requires Inv(e, s) && Allowed(e, s, Drop(p))
    ensures Inv(e, Step(e, s, Drop(p)))
  {
    var pc := s.calls[p].pc;
    var t := Step(e, s, Drop(p));
    assert CallOk(e, s, p);
    forall r ensures RecOk(e, t, r) { assert RecOk(e, s, r) && MeetsRec(e, s, p, r); }
    forall r, u ensures PairOk(e, t, r, u) { assert PairOk(e, s, r, u); }
    forall q, r ensures MeetsRec(e, t, q, r) { assert MeetsRec(e, s, q, r); }
    forall q ensures CallOk(e, t, q) { assert CallOk(e, s, q) && Apart(e, s, p, q); }
    forall q, u ensures Apart(e, t, q, u) { assert Apart(e, s, q, u); }
  }

  // ---------- steps that add a record ----------

  /** What a new record must satisfy for call `p` to make it. */
  ghost predicate MayRecord(e: Env, s: Library, p: nat, r: Rec)
    requires p in s.calls
  {
    var id := s.calls[p].id;
    && id !in s.recs && HoldsKey(s.calls[p].pc) && r.path in s.files && e.hash(s.files[r.path]) == r.hash
    && (forall t {:trigger FitsRec(e, s, id, r, t)} :: FitsRec(e, s, id, r, t))
    && (forall q {:trigger FitsCall(s, p, r, q)} :: FitsCall(s, p, r, q))
  }

  /** Records of the same media or the same content already name this path. */
  predicate FitsRec(e: Env, s: Library, id: Id, r: Rec, t: Id) {
    t in s.recs && (e.key(t.url) == e.key(id.url) || s.recs[t].hash == r.hash) ==> s.recs[t].path == r.path
  }

  /** No other call is about to delete or to record this path, or to record this content. */
  predicate FitsCall(s: Library, p: nat, r: Rec, q: nat) {
    q in s.calls && q != p ==>
      (HasOwn(s.calls[q].pc) ==> s.calls[q].pc.own.path != r.path)
      && (s.calls[q].pc.Recording? ==> s.calls[q].pc.own.hash != r.hash)
  }

  lemma RecordKeeps(e: Env, s: Library, p: nat, r: Rec)
    requires Inv(e, s) && p in s.calls && MayRecord(e, s, p, r)
    ensures Inv(e, Recorded(s, p, r))
  {
    var t := Recorded(s, p, r);
    var id := s.calls[p].id;
    forall x ensures RecOk(e, t, x) { assert RecOk(e, s, x); }
    forall x, u ensures PairOk(e, t, x, u) {
      assert PairOk(e, s, x, u) && FitsRec(e, s, id, r, x) && FitsRec(e, s, id, r, u);
    }
    forall q, x ensures MeetsRec(e, t, q, x) {
      assert MeetsRec(e, s, q, x) && Apart(e, s, p, q) && FitsCall(s, p, r, q);
    }
    forall q ensures CallOk(e, t, q) { assert CallOk(e, s, q) && Apart(e, s, p, q); }
    forall q, u ensures Apart(e, t, q, u) { assert Apart(e, s, q, u); }
  }

  lemma CopyMayRecord(e: Env, s: Library, p: nat)
    requires Inv(e, s) && Allowed(e, s, RecordCopy(p))
    ensures MayRecord(e, s, p, s.calls[p].pc.rec)
  {
    var id, c, r := s.calls[p].id, s.calls[p].pc.copy, s.calls[p].pc.rec;
    assert CallOk(e, s, p) && RecOk(e, s, c);
    forall t ensures FitsRec(e, s, id, r, t) { assert PairOk(e, s, c, t); }
    forall q ensures FitsCall(s, p, r, q) { assert MeetsRec(e, s, q, c); }
  }

  lemma LinkMayRecord(e: Env, s: Library, p: nat)
    requires Inv(e, s) && Allowed(e, s, RecordLink(p))
    ensures MayRecord(e, s, p, Rec(s.calls[p].pc.hash, s.calls[p].pc.rec.path))
  {
    var id, c, r := s.calls[p].id, s.calls[p].pc.copy, Rec(s.calls[p].pc.hash, s.calls[p].pc.rec.path);
    assert CallOk(e, s, p) && RecOk(e, s, c) && MeetsRec(e, s, p, id);
    forall t ensures FitsRec(e, s, id, r, t) { assert PairOk(e, s, c, t) && MeetsRec(e, s, p, t); }
    forall q ensures FitsCall(s, p, r, q) { assert MeetsRec(e, s, q, c); }
  }

  lemma OwnMayRecord(e: Env, s: Library, p: nat)
    requires Inv(e, s) && Allowed(e, s, RecordOwn(p))
    ensures MayRecord(e, s, p, s.calls[p].pc.own)
  {
    var id, r := s.calls[p].id, s.calls[p].pc.own;
    assert CallOk(e, s, p) && MeetsRec(e, s, p, id);
    forall t ensures FitsRec(e, s, id, r, t) { assert MeetsRec(e, s, p, t); }
    forall q ensures FitsCall(s, p, r, q) { assert Apart(e, s, p, q); }
  }

  // ---------- every step ----------

  lemma LockStepKeeps(e: Env, s: Library, op: Op)
    requires Inv(e, s) && Allowed(e, s, op) && (op.Begin? || op.LockKey? || op.LockHash?)
    ensures Inv(e, Step(e, s, op))
  {
    var p := op.p;
    var c := Step(e, s, op).calls[p];
    var t := s.(calls := s.calls[p := c]);
    if op.LockKey? || op.LockHash? { assert CallOk(e, s, p); }
    forall r ensures MeetsRec(e, t, p, r) { assert MeetsRec(e, s, p, r); }
    forall q ensures Apart(e, t, p, q) && Apart(e, t, q, p) {
      assert Apart(e, s, p, q) && Apart(e, s, q, p);
      if op.LockKey? { assert FreeOfKey(e, s, p, q); }
      if op.LockHash? { assert FreeOfHash(s, p, q, s.calls[p].pc.own.hash); }
    }
    MoveKeeps(e, s, p, c);
  }

  lemma FindStepKeeps(e: Env, s: Library, op: Op)
    requires Inv(e, s) && Allowed(e, s, op) && (op.FindCopy? || op.NoCopy? || op.FindSame? || op.NoSame?)
    ensures Inv(e, Step(e, s, op))
  {
    var p := op.p;
    var c := Step(e, s, op).calls[p];
    var t := s.(calls := s.calls[p := c]);
    assert CallOk(e, s, p) && RecOk(e, s, c.id);
    forall r ensures MeetsRec(e, t, p, r) {
      assert MeetsRec(e, s, p, r) && RecOk(e, s, r);
      if op.NoCopy? { assert !CopyOf(e, s, r, e.key(c.id.url)); }
      if op.NoSame? { assert !SameContent(s, r, s.calls[p].pc.own); }
    }
    forall q ensures Apart(e, t, p, q) && Apart(e, t, q, p) {
      assert Apart(e, s, p, q) && Apart(e, s, q, p);
    }
    MoveKeeps(e, s, p, c);
  }

  lemma SaveStepKeeps(e: Env, s: Library, op: Op)
    requires Inv(e, s) && Allowed(e, s, op) && (op.Save? || op.SaveOver? || op.KeepExisting?)
    ensures Inv(e, Step(e, s, op)) && op.Save?
  {
    var p := op.p;
    assert CallOk(e, s, p) && MeetsRec(e, s, p, s.calls[p].id);
    var s2 := s.(files := s.files[op.path := op.content]);
    AddFileKeeps(e, s, op.path, op.content);
    var c := Step(e, s, op).calls[p];
    var t := s2.(calls := s2.calls[p := c]);
    forall r ensures MeetsRec(e, t, p, r) { assert MeetsRec(e, s, p, r) && RecOk(e, s, r); }
    forall q ensures Apart(e, t, p, q) && Apart(e, t, q, p) {
      assert Apart(e, s, p, q) && Apart(e, s, q, p) && CallOk(e, s, q);
    }
    MoveKeeps(e, s2, p, c);
  }

  lemma StepKeeps(e: Env, s: Library, op: Op)
    requires Inv(e, s) && Allowed(e, s, op)
    ensures Inv(e, Step(e, s, op))
  {
    hide Inv, MayRecord, MayBeAt;
    match op
    case Begin(_, _) => LockStepKeeps(e, s, op);
    case LockKey(_) => LockStepKeeps(e, s, op);
    case LockHash(_) => LockStepKeeps(e, s, op);
    case FindCopy(_, _) => FindStepKeeps(e, s, op);
    case NoCopy(_) => FindStepKeeps(e, s, op);
    case FindSame(_, _) => FindStepKeeps(e, s, op);
    case NoSame(_) => FindStepKeeps(e, s, op);
    case Save(_, _, _) => SaveStepKeeps(e, s, op);
    case SaveOver(_, _, _) => SaveStepKeeps(e, s, op);
    case KeepExisting(_, _) => SaveStepKeeps(e, s, op);
    case Drop(p) => DropFileKeeps(e, s, p);
    case RecordCopy(p) => CopyMayRecord(e, s, p); RecordKeeps(e, s, p, s.calls[p].pc.rec);
    case RecordLink(p) => LinkMayRecord(e, s, p); RecordKeeps(e, s, p, Rec(s.calls[p].pc.hash, s.calls[p].pc.rec.path));
    case RecordOwn(p) => OwnMayRecord(e, s, p); RecordKeeps(e, s, p, s.calls[p].pc.own);
    case Skip(p) => LeaveKeeps(e, s, p);
    case Fail(p) => LeaveKeeps(e, s, p);
  }

  /** No step rewrites a record, or the file that a record names. */
  lemma StepSpares(e: Env, s: Library, op: Op, r: Id)
    requires Inv(e, s) && Allowed(e, s, op) && r in s.recs
    ensures var t := Step(e, s, op);
      var path := s.recs[r].path;
      r in t.recs && t.recs[r] == s.recs[r] && path in s.files && path in t.files && t.files[path] == s.files[path]
  {
    assert RecOk(e, s, r);
    if op.SaveOver? || op.KeepExisting? { SaveStepKeeps(e, s, op); }
    if op.RecordCopy? { CopyMayRecord(e, s, op.p); }
    if op.RecordLink? { LinkMayRecord(e, s, op.p); }
    if op.RecordOwn? { OwnMayRecord(e, s, op.p); }
    if op.Drop? { assert MeetsRec(e, s, op.p, r); }
    hide Inv;
  }

  // ---------- every run ----------

  ghost predicate Legal(e: Env, s: Library, ops: seq<Op>)
    decreases |ops|
  {
    ops != [] ==> Allowed(e, s, ops[0]) && Legal(e, Step(e, s, ops[0]), ops[1..])
  }

  ghost function Run(e: Env, s: Library, ops: seq<Op>): Library
    requires Legal(e, s, ops)
    decreases |ops|
  {
    if ops == [] then s else Run(e, Step(e, s, ops[0]), ops[1..])
  }

  /** Whatever calls run in whatever order, and wherever they fail: the library stays sound. */
  lemma {:induction false} RunKeeps(e: Env, s: Library, ops: seq<Op>)
    requires Inv(e, s) && Legal(e, s, ops)
    ensures Inv(e, Run(e, s, ops))
    decreases |ops|
  {
    if ops != [] {
      StepKeeps(e, s, ops[0]);
      hide Inv, Step;
      RunKeeps(e, Step(e, s, ops[0]), ops[1..]);
    }
  }

  /** A record once made keeps its path, and its file keeps its content. */
  lemma {:induction false} RunSpares(e: Env, s: Library, ops: seq<Op>, r: Id)
    requires Inv(e, s) && Legal(e, s, ops) && r in s.recs
    ensures var t := Run(e, s, ops);
      var path := s.recs[r].path;
      r in t.recs && t.recs[r] == s.recs[r] && path in s.files && path in t.files && t.files[path] == s.files[path]
    decreases |ops|
  {
    if ops != [] {
      StepKeeps(e, s, ops[0]);
      StepSpares(e, s, ops[0], r);
      hide Inv, Step;
      RunSpares(e, Step(e, s, ops[0]), ops[1..], r);
    } else {
      assert RecOk(e, s, r);
    }
  }

  /** From an empty library: one path per media key, one file per content, every record backed by its file. */
  lemma LibrarySound(e: Env, ops: seq<Op>, r: Id, t: Id)
    requires Legal(e, Library(map[], map[], map[]), ops)
    ensures var s := Run(e, Library(map[], map[], map[]), ops);
      RecOk(e, s, r) && PairOk(e, s, r, t)
  {
    assert Inv(e, Library(map[], map[], map[]));
    RunKeeps(e, Library(map[], map[], map[]), ops);
  }

  // ---------- what a call achieves ----------

  predicate Fails(op: Op) { op.Fail? }

  /** A call that returns without having failed has its medium recorded, at a file that is there. */
  lemma ReturnsRecorded(e: Env, s: Library, op: Op, p: nat)
    requires Inv(e, s) && Allowed(e, s, op) && p in s.calls && p !in Step(e, s, op).calls && !Fails(op)
    ensures var t, id := Step(e, s, op), s.calls[p].id;
      id in t.recs && t.recs[id].path in t.files && e.hash(t.files[t.recs[id].path]) == t.recs[id].hash
  {
    StepKeeps(e, s, op);
    assert RecOk(e, Step(e, s, op), s.calls[p].id);
    hide Inv;
  }

  /** What was saved is recorded under its own hash, at the saved file or at the older one of the same content. */
  lemma SavedIsRecorded(e: Env, s: Library, op: Op, p: nat)
    requires Inv(e, s) && Allowed(e, s, op) && p in s.calls && p !in Step(e, s, op).calls && !Fails(op)
    requires HoldsHash(s.calls[p].pc)
    ensures Step(e, s, op).recs[s.calls[p].id].hash == HashOf(s.calls[p].pc)
  {
    assert CallOk(e, s, p);
  }

  /** The file is a recorded one, or a call under way has just saved it. */
  ghost predicate Claimed(s: Library, path: string) {
    (exists r :: NamedBy(s, r, path)) || (exists p :: OwnedBy(s, p, path))
  }

  predicate NamedBy(s: Library, r: Id, path: string) { r in s.recs && s.recs[r].path == path }

  predicate OwnedBy(s: Library, p: nat, path: string) { p in s.calls && HasOwn(s.calls[p].pc) && s.calls[p].pc.own.path == path }

  /** A step leaves a file without a record behind only if it is the failure of the call that saved the file. */
  lemma StepClaims(e: Env, s: Library, op: Op, path: string)
    requires Inv(e, s) && Allowed(e, s, op) && path in Step(e, s, op).files
    requires path in s.files ==> Claimed(s, path)
    requires !(Fails(op) && OwnedBy(s, op.p, path))
    ensures Claimed(Step(e, s, op), path)
  {
    var t := Step(e, s, op);
    if exists r :: NamedBy(s, r, path) {
      var r :| NamedBy(s, r, path);
      StepSpares(e, s, op, r);
      assert NamedBy(t, r, path);
    } else if exists p :: OwnedBy(s, p, path) {
      var p :| OwnedBy(s, p, path);
      OwnerStays(e, s, op, p, path);
    } else {
      SaveStepKeeps(e, s, op);
      assert OwnedBy(t, op.p, path);
    }
  }

  lemma OwnerStays(e: Env, s: Library, op: Op, p: nat, path: string)
    requires Inv(e, s) && Allowed(e, s, op) && path in Step(e, s, op).files && OwnedBy(s, p, path)
    requires !(Fails(op) && op.p == p)
    ensures Claimed(Step(e, s, op), path)
  {
    var t := Step(e, s, op);
    assert CallOk(e, s, p);
    if op.p == p {
      if op.RecordOwn? { assert NamedBy(t, s.calls[p].id, path); } else { assert OwnedBy(t, p, path); }
    } else {
      assert OwnedBy(t, p, path);
    }
  }

  ghost predicate NoFailure(ops: seq<Op>) { forall i {:trigger ops[i]} :: 0 <= i < |ops| ==> !Fails(ops[i]) }

  lemma {:induction false} RunClaims(e: Env, s: Library, ops: seq<Op>)
    requires Inv(e, s) && Legal(e, s, ops) && NoFailure(ops)
    requires forall path {:trigger path in s.files} :: path in s.files ==> Claimed(s, path)
    ensures forall path {:trigger path in Run(e, s, ops).files} :: path in Run(e, s, ops).files ==> Claimed(Run(e, s, ops), path)
    decreases |ops|
  {
    if ops != [] {
      var t := Step(e, s, ops[0]);
      assert !Fails(ops[0]);
      StepKeeps(e, s, ops[0]);
      forall path | path in t.files ensures Claimed(t, path) { StepClaims(e, s, ops[0], path); }
      hide Inv, Step, Claimed;
      assert NoFailure(ops[1..]);
      RunClaims(e, t, ops[1..]);
    }
  }

  /** Without failures nothing is left over: when no call is under way, the files are exactly those that records name. */
  lemma NothingLeftOver(e: Env, ops: seq<Op>, path: string)
    requires Legal(e, Library(map[], map[], map[]), ops) && NoFailure(ops) && Run(e, Library(map[], map[], map[]), ops).calls == map[]
    ensures var s := Run(e, Library(map[], map[], map[]), ops);
      path in s.files <==> exists r :: NamedBy(s, r, path)
  {
    var start := Library(map[], map[], map[]);
    var s := Run(e, start, ops);
    assert Inv(e, start);
    RunClaims(e, start, ops);
    RunKeeps(e, start, ops);
    if exists r :: NamedBy(s, r, path) {
      var r :| NamedBy(s, r, path);
      assert RecOk(e, s, r);
    }
  }

  /** A failed call leaves its file behind: the exception is real. */
  lemma FailureLeavesFile(e: Env, s: Library, p: nat)
    requires Inv(e, s) && p in s.calls && HasOwn(s.calls[p].pc)
    ensures var t, path := Step(e, s, Fail(p)), s.calls[p].pc.own.path; path in t.files && !Claimed(t, path)
  {
    var t, path := Step(e, s, Fail(p)), s.calls[p].pc.own.path;
    assert CallOk(e, s, p);
    forall r ensures !NamedBy(t, r, path) { assert MeetsRec(e, s, p, r); }
    forall q ensures !OwnedBy(t, q, path) { assert Apart(e, s, p, q); }
  }

  /** No call is stuck: unless another one holds its lock, it has a step to take that is not a failure. */
  lemma NeverStuck(e: Env, s: Library, p: nat)
    requires Inv(e, s) && p in s.calls
    ensures (exists op :: Allowed(e, s, op) && op.p == p && !Fails(op))
      || (s.calls[p].pc.Waiting? && exists q :: !FreeOfKey(e, s, p, q))
      || (s.calls[p].pc.Saved? && exists q :: !FreeOfHash(s, p, q, s.calls[p].pc.own.hash))
      || s.calls[p].pc.Fetching?
  {
    var c := s.calls[p];
    match c.pc
    case Waiting => if forall q {:trigger FreeOfKey(e, s, p, q)} :: FreeOfKey(e, s, p, q) { Goes(e, s, LockKey(p)); }
    case Locked =>
      if Archived(s, c.id) {
        Goes(e, s, Skip(p));
      } else if r :| CopyOf(e, s, r, e.key(c.id.url)) {
        Goes(e, s, FindCopy(p, r));
      } else {
        Goes(e, s, NoCopy(p));
      }
    case Copying(_, _) => Goes(e, s, RecordCopy(p));
    case Fetching =>
    case Saved(own) => if forall q {:trigger FreeOfHash(s, p, q, own.hash)} :: FreeOfHash(s, p, q, own.hash) { Goes(e, s, LockHash(p)); }
    case HashLocked(own) =>
      if r :| SameContent(s, r, own) {
        Goes(e, s, FindSame(p, r));
      } else {
        Goes(e, s, NoSame(p));
      }
    case Dropping(_, _, _) => Goes(e, s, Drop(p));
    case Linking(_, _, _) => Goes(e, s, RecordLink(p));
    case Recording(_) => Goes(e, s, RecordOwn(p));
  }

  lemma Goes(e: Env, s: Library, op: Op)
    requires Allowed(e, s, op) && !Fails(op)
    ensures exists o :: Allowed(e, s, o) && o.p == op.p && !Fails(o)
  {
  }
}
