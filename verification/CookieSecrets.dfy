/** Showing secrets as placeholders and restoring them from what comes back. */
module CookieSecrets {
  import opened Decimals
  import opened Runes

  const PLACEHOLDER: string := "********"

  datatype Pair = Pair(id: string, auth: string, csrf: string)

  /** A stored or submitted cookie setting after trimming and parsing; a structured one has at least one row. */
  datatype Value = Blank | Clear | Masked | Unstructured(text: string) | Rows(rows: seq<Pair>)

  function RowsOf(v: Value): seq<Pair> { if v.Rows? then v.rows else [] }

  function Redact(s: string): string { if s == "" then "" else PLACEHOLDER }

  // ---------- single fields ----------

  datatype Field = Text(s: string) | ClearField

  /** One credential of ResolveSubmission; a field set by the environment is never taken from the form. */
  function Resolved(overridden: bool, submitted: Field, stored: string): string {
    if overridden then stored
    else match submitted
      case ClearField => ""
      case Text(s) => if s == "" || s == PLACEHOLDER then stored else s
  }

  /** Sending back what was shown changes nothing, and the placeholder itself is never stored. */
  lemma FieldRoundTrip(overridden: bool, submitted: Field, stored: string)
    ensures Resolved(overridden, Text(Redact(stored)), stored) == stored
    ensures stored != PLACEHOLDER ==> Resolved(overridden, submitted, stored) != PLACEHOLDER
    ensures !overridden ==> Resolved(overridden, ClearField, stored) == ""
  {
  }

  /** A new secret is taken over, unless the environment sets the field. */
  lemma NewFieldStored(submitted: string, stored: string)
    requires submitted != "" && submitted != PLACEHOLDER
    ensures Resolved(false, Text(submitted), stored) == submitted && Resolved(true, Text(submitted), stored) == stored
    ensures Redact(stored) == "" <==> stored == ""
    ensures Redact(stored) in {"", PLACEHOLDER}
  {
  }

  // ---------- ids ----------

  function GeneratedId(index: nat): string { "cookie-" + Decimal(index) }

  function FilledRow(p: Pair, index: nat): Pair { if Trim(p.id) == "" then p.(id := GeneratedId(index)) else p }

  function Filled(ps: seq<Pair>): (r: seq<Pair>)
    ensures |r| == |ps|
    ensures forall i :: 0 <= i < |ps| ==> r[i] == FilledRow(ps[i], i)
  {
    if ps == [] then [] else Filled(ps[..|ps| - 1]) + [FilledRow(ps[|ps| - 1], |ps| - 1)]
  }

  lemma GeneratedNotBlank(index: nat)
    ensures Trim(GeneratedId(index)) != ""
  {
    var s := GeneratedId(index);
    assert s[0] == 'c' && !IsSpace('c');
    assert TrimLeft(s) == s;
    OnlyDigits(index, |Decimal(index)| - 1);
    assert s[|s| - 1] == Decimal(index)[|Decimal(index)| - 1];
    assert !IsSpace(s[|s| - 1]);
    assert TrimRight(s) == s;
  }

  predicate HasId(p: Pair) { Trim(p.id) != "" }

  lemma FilledHaveIds(ps: seq<Pair>, i: nat)
    requires i < |ps|
    ensures HasId(Filled(ps)[i])
  {
    GeneratedNotBlank(i);
    hide Trim, GeneratedId;
  }

  /** Rows that all have ids stay as they are. */
  lemma FilledKeeps(ps: seq<Pair>)
    requires forall i {:trigger ps[i]} :: 0 <= i < |ps| ==> HasId(ps[i])
    ensures Filled(ps) == ps
  {
    hide Filled, Trim;
  }

  /** withCookieIDs writes the generated ids into the slice. */
  method WithCookieIDs(pairs: array<Pair>)
    modifies pairs
    ensures pairs[..] == Filled(old(pairs[..]))
  {
    hide Filled, GeneratedId, Trim;
    for i := 0 to pairs.Length
      invariant forall k :: 0 <= k < i ==> pairs[k] == FilledRow(old(pairs[k]), k)
      invariant forall k :: i <= k < pairs.Length ==> pairs[k] == old(pairs[k])
    {
      if Trim(pairs[i].id) == "" { pairs[i] := pairs[i].(id := GeneratedId(i)); }
    }
  }

  // ---------- redacting ----------

  function RedactedRow(p: Pair): Pair { Pair(p.id, Redact(p.auth), Redact(p.csrf)) }

  ghost function Redacted(ps: seq<Pair>): (r: seq<Pair>)
    ensures |r| == |ps|
  {
    seq(|ps|, i requires 0 <= i < |ps| => RedactedRow(Filled(ps)[i]))
  }

  /** What is shown has no secret in it, and tells for each field whether there is one. */
  lemma ShownHidesSecrets(ps: seq<Pair>, i: nat)
    requires i < |ps|
    ensures var p := Redacted(ps)[i];
      && p.auth in {"", PLACEHOLDER} && p.csrf in {"", PLACEHOLDER}
      && (p.auth == "" <==> ps[i].auth == "") && (p.csrf == "" <==> ps[i].csrf == "")
      && (HasId(ps[i]) ==> p.id == ps[i].id)
  {
    hide Trim, GeneratedId;
  }

  method RedactAdditionalCookies(v: Value) returns (r: Value)
    ensures r == if v.Rows? && v.rows != [] then Rows(Redacted(v.rows)) else if v.Masked? then Masked else Blank
  {
    if v.Masked? { return Masked; }
    if !v.Rows? || |v.rows| == 0 { return Blank; }
    var filled := Filled(v.rows);
    var shown: seq<Pair> := [];
    for i := 0 to |filled|
      invariant |shown| == i && forall k :: 0 <= k < i ==> shown[k] == RedactedRow(filled[k])
    {
      shown := shown + [RedactedRow(filled[i])];
    }
    return Rows(shown);
  }

  // ---------- restoring ----------

  /** The first row with an id. */
  function Lookup(ps: seq<Pair>, id: string): (r: seq<Pair>)
    ensures r == [] || (|r| == 1 && r[0] in ps && r[0].id == id)
  {
    if ps == [] then []
    else
      var before := Lookup(ps[..|ps| - 1], id);
      if before == [] && ps[|ps| - 1].id == id then [ps[|ps| - 1]] else before
  }

  function RestoredField(shown: string, known: bool, secret: string): string {
    var s := if known && shown == PLACEHOLDER then secret else shown;
    if s == PLACEHOLDER then "" else s
  }

  function RestoredRow(stored: seq<Pair>, sub: Pair): Pair {
    var found := Lookup(stored, sub.id);
    var known := found != [];
    Pair(sub.id,
         RestoredField(sub.auth, known, if known then found[0].auth else ""),
         RestoredField(sub.csrf, known, if known then found[0].csrf else ""))
  }

  predicate EmptyRow(p: Pair) { p.auth == "" && p.csrf == "" }

  ghost function Ids(ps: seq<Pair>): set<string> { set i | 0 <= i < |ps| && ps[i].id != "" :: ps[i].id }

  /** Each submitted id counts once, the first time; rows that end up empty are dropped. */
  ghost function Merged(stored: seq<Pair>, subs: seq<Pair>): seq<Pair> {
    if subs == [] then []
    else
      var front, sub := subs[..|subs| - 1], subs[|subs| - 1];
      var r := RestoredRow(stored, sub);
      if sub.id in Ids(front) || EmptyRow(r) then Merged(stored, front) else Merged(stored, front) + [r]
  }

  ghost function Restored(submitted: Value, stored: Value): Value {
    match submitted
    case Blank => Blank
    case Clear => Blank
    case Masked => stored
    case Unstructured(t) => Unstructured(t)
    case Rows(subs) =>
      var merged := Merged(Filled(RowsOf(stored)), subs);
      if merged == [] then Blank else Rows(Filled(merged))
  }

  ghost predicate Index(stored: seq<Pair>, byId: map<string, Pair>) {
    forall id {:trigger Lookup(stored, id)} :: Lookup(stored, id) == if id in byId then [byId[id]] else []
  }

  lemma LookupMore(stored: seq<Pair>, p: Pair, id: string)
    ensures Lookup(stored + [p], id) == if Lookup(stored, id) == [] && p.id == id then [p] else Lookup(stored, id)
  {
    assert (stored + [p])[..|stored|] == stored;
  }

  lemma MergedMore(stored: seq<Pair>, subs: seq<Pair>, sub: Pair)
    ensures var r := RestoredRow(stored, sub);
      Merged(stored, subs + [sub]) == if sub.id in Ids(subs) || EmptyRow(r) then Merged(stored, subs) else Merged(stored, subs) + [r]
    ensures Ids(subs + [sub]) == Ids(subs) + (if sub.id != "" then {sub.id} else {})
  {
    assert (subs + [sub])[..|subs|] == subs;
    forall x | x in Ids(subs) ensures x in Ids(subs + [sub]) {
      var i :| 0 <= i < |subs| && subs[i].id == x;
      assert (subs + [sub])[i] == subs[i];
    }
    assert (subs + [sub])[|subs|] == sub;
  }

  method StoredById(stored: seq<Pair>) returns (byId: map<string, Pair>)
    ensures Index(stored, byId)
  {
    byId := map[];
    for i := 0 to |stored|
      invariant Index(stored[..i], byId)
    {
      assert stored[..i + 1] == stored[..i] + [stored[i]];
      var found := stored[i];
      forall id ensures Lookup(stored[..i + 1], id) == if Lookup(stored[..i], id) == [] && found.id == id then [found] else Lookup(stored[..i], id) {
        LookupMore(stored[..i], found, id);
      }
      if stored[i].id !in byId { byId := byId[stored[i].id := stored[i]]; }
    }
    assert stored[..|stored|] == stored;
  }

  method RestoreRow(ghost stored: seq<Pair>, byId: map<string, Pair>, sub: Pair) returns (p: Pair)
    requires Index(stored, byId)
    ensures p == RestoredRow(stored, sub)
  {
    hide Lookup;
    var auth, csrf := sub.auth, sub.csrf;
    assert Lookup(stored, sub.id) == if sub.id in byId then [byId[sub.id]] else [];
    if sub.id in byId {
      if auth == PLACEHOLDER { auth := byId[sub.id].auth; }
      if csrf == PLACEHOLDER { csrf := byId[sub.id].csrf; }
    }
    if auth == PLACEHOLDER { auth := ""; }
    if csrf == PLACEHOLDER { csrf := ""; }
    return Pair(sub.id, auth, csrf);
  }

  method MergeRows(stored: seq<Pair>, subs: seq<Pair>) returns (merged: seq<Pair>)
    ensures merged == Merged(stored, subs)
  {
    hide Lookup, Merged, Ids, RestoredRow, Index;
    var byId := StoredById(stored);
    var seen: set<string> := {};
    merged := [];
    NoneMerged(stored);
    for i := 0 to |subs|
      invariant merged == Merged(stored, subs[..i]) && seen == Ids(subs[..i])
    {
      var sub := subs[i];
      assert subs[..i + 1] == subs[..i] + [sub];
      MergedMore(stored, subs[..i], sub);
      NoBlankId(subs[..i]);
      if sub.id !in seen {
        if sub.id != "" { seen := seen + {sub.id}; }
        var p := RestoreRow(stored, byId, sub);
        if !EmptyRow(p) { merged := merged + [p]; }
      }
    }
    assert subs[..|subs|] == subs;
  }

  method RestoreAdditionalCookies(submitted: Value, stored: Value) returns (r: Value)
    ensures r == Restored(submitted, stored)
  {
    hide Filled, Merged;
    if submitted.Blank? || submitted.Clear? { return Blank; }
    if submitted.Masked? { return stored; }
    if submitted.Unstructured? { return submitted; }
    var merged := MergeRows(Filled(RowsOf(stored)), submitted.rows);
    if |merged| == 0 { return Blank; }
    return Rows(Filled(merged));
  }

  lemma NoneMerged(stored: seq<Pair>)
    ensures Merged(stored, []) == [] && Ids([]) == {}
  {
  }

  lemma NoBlankId(ps: seq<Pair>)
    ensures "" !in Ids(ps)
  {
  }

  // ---------- what is typed in ----------

  /** A field of a row that is not the placeholder is taken over as it is, known row or not; the placeholder brings the
      stored secret back if the row is known, and is blank otherwise. */
  lemma FieldTaken(stored: seq<Pair>, sub: Pair, k: nat)
    requires k < |stored| && stored[k].id == sub.id && NoPlaceholder(stored[k]) && forall i :: 0 <= i < k ==> stored[i].id != sub.id
    ensures RestoredRow(stored, sub) == Pair(sub.id, if sub.auth == PLACEHOLDER then stored[k].auth else sub.auth,
                                             if sub.csrf == PLACEHOLDER then stored[k].csrf else sub.csrf)
  {
    LookupFirst(stored, k);
    hide Lookup;
  }

  lemma UnknownTaken(stored: seq<Pair>, sub: Pair)
    requires forall i {:trigger stored[i]} :: 0 <= i < |stored| ==> stored[i].id != sub.id
    ensures RestoredRow(stored, sub) == Pair(sub.id, if sub.auth == PLACEHOLDER then "" else sub.auth,
                                             if sub.csrf == PLACEHOLDER then "" else sub.csrf)
  {
    LookupNone(stored, sub.id);
    hide Lookup;
  }

  /** What becomes of the submitted row at place `k`: it counts unless an earlier one has its id, and is kept unless it
      is empty. */
  ghost predicate Counts(stored: seq<Pair>, subs: seq<Pair>, k: nat)
    requires k < |subs|
  {
    subs[k].id !in Ids(subs[..k]) && !EmptyRow(RestoredRow(stored, subs[k]))
  }

  /** `ps` are the restored rows that count, in the order of their places `at`. */
  ghost predicate MergedAt(stored: seq<Pair>, subs: seq<Pair>, ps: seq<Pair>, at: seq<nat>) {
    && |at| == |ps|
    && (forall i {:trigger at[i]} :: 0 <= i < |at| ==> at[i] < |subs| && Counts(stored, subs, at[i]) && ps[i] == RestoredRow(stored, subs[at[i]]))
    && (forall i, j {:trigger at[i], at[j]} :: 0 <= i < j < |at| ==> at[i] < at[j])
    && (forall k: nat {:trigger Counts(stored, subs, k)} :: k < |subs| && Counts(stored, subs, k) ==> k in at)
  }

  /** All submitted rows that count are stored, no other ones, and in the order submitted. */
  lemma {:induction false} MergedExact(stored: seq<Pair>, subs: seq<Pair>) returns (at: seq<nat>)
    ensures MergedAt(stored, subs, Merged(stored, subs), at)
  {
    hide Merged, MergedAt, Counts;
    if subs == [] {
      at := [];
      NoneMerged(stored);
      NoneAt(stored);
    } else {
      var n := |subs| - 1;
      at := MergedExact(stored, subs[..n]);
      MergedFront(stored, subs);
      OneMoreAt(stored, subs[..n], subs[n], Merged(stored, subs[..n]), at);
      assert subs == subs[..n] + [subs[n]];
      if Counts(stored, subs, n) { at := at + [n]; }
    }
  }

  lemma NoneAt(stored: seq<Pair>)
    ensures MergedAt(stored, [], [], [])
  {
  }

  lemma OneMoreAt(stored: seq<Pair>, front: seq<Pair>, sub: Pair, ps: seq<Pair>, at: seq<nat>)
    requires MergedAt(stored, front, ps, at)
    ensures var subs, n := front + [sub], |front|;
      if Counts(stored, subs, n) then MergedAt(stored, subs, ps + [RestoredRow(stored, sub)], at + [n]) else MergedAt(stored, subs, ps, at)
  {
    var subs, n := front + [sub], |front|;
    forall k: nat | k < n ensures Counts(stored, subs, k) <==> Counts(stored, front, k) { assert front[..k] == subs[..k]; }
    hide Counts, RestoredRow;
    var more := at + [n];
    assert more[|at|] == n;
    forall k: nat | k < n && Counts(stored, subs, k) ensures k in at && k in more { }
  }

  lemma MergedFront(stored: seq<Pair>, subs: seq<Pair>)
    requires subs != []
    ensures var n := |subs| - 1;
      Merged(stored, subs) == if Counts(stored, subs, n) then Merged(stored, subs[..n]) + [RestoredRow(stored, subs[n])] else Merged(stored, subs[..n])
  {
    hide RestoredRow, Ids, EmptyRow;
  }

  /** A setting that is not given in rows: blank or the clearing word clears it, the placeholder keeps it, and any other
      text is stored as it is. */
  lemma WholeSetting(stored: Value, text: string)
    ensures Restored(Blank, stored) == Blank && Restored(Clear, stored) == Blank && Restored(Masked, stored) == stored
    ensures Restored(Unstructured(text), stored) == Unstructured(text)
    ensures Restored(Rows([]), stored) == Blank
  {
    hide Filled;
  }

  // ---------- the placeholder is never stored ----------

  predicate NoPlaceholder(p: Pair) { p.auth != PLACEHOLDER && p.csrf != PLACEHOLDER }

  lemma {:induction false} MergedNoPlaceholder(stored: seq<Pair>, subs: seq<Pair>, i: nat)
    requires i < |Merged(stored, subs)|
    ensures NoPlaceholder(Merged(stored, subs)[i]) && !EmptyRow(Merged(stored, subs)[i])
  {
    hide Lookup, Ids;
    assert PLACEHOLDER != "";
    if i < |Merged(stored, subs[..|subs| - 1])| { MergedNoPlaceholder(stored, subs[..|subs| - 1], i); }
  }

  /** Whatever rows are submitted against whatever is stored: no placeholder and no empty row is stored, and every row has an id. */
  lemma PlaceholderNeverStored(subs: seq<Pair>, stored: Value, i: nat)
    requires i < |RowsOf(Restored(Rows(subs), stored))|
    ensures var p := RowsOf(Restored(Rows(subs), stored))[i]; NoPlaceholder(p) && !EmptyRow(p) && HasId(p)
  {
    var merged := Merged(Filled(RowsOf(stored)), subs);
    MergedNoPlaceholder(Filled(RowsOf(stored)), subs, i);
    FilledHaveIds(merged, i);
    hide Merged, Filled, Trim, GeneratedId;
  }

  // ---------- the round trip ----------

  ghost predicate DistinctIds(ps: seq<Pair>) {
    forall i, j {:trigger ps[i], ps[j]} :: 0 <= i < j < |ps| ==> ps[i].id != ps[j].id
  }

  /** Stored rows hold some secret, and no placeholder for one. */
  ghost predicate Proper(ps: seq<Pair>) { forall i {:trigger ps[i]} :: 0 <= i < |ps| ==> NoPlaceholder(ps[i]) && !EmptyRow(ps[i]) }

  lemma {:induction false} LookupFirst(ps: seq<Pair>, k: nat)
    requires k < |ps| && forall i :: 0 <= i < k ==> ps[i].id != ps[k].id
    ensures Lookup(ps, ps[k].id) == [ps[k]]
  {
    var front := ps[..|ps| - 1];
    if k < |front| {
      LookupFirst(front, k);
    } else {
      LookupNone(front, ps[k].id);
    }
  }

  lemma {:induction false} LookupNone(ps: seq<Pair>, id: string)
    requires forall i {:trigger ps[i]} :: 0 <= i < |ps| ==> ps[i].id != id
    ensures Lookup(ps, id) == []
  {
    if ps != [] { LookupNone(ps[..|ps| - 1], id); }
  }

  /** The row that was shown comes back as the row that was stored. */
  lemma RowRoundTrip(filled: seq<Pair>, k: nat)
    requires k < |filled| && NoPlaceholder(filled[k]) && forall i :: 0 <= i < k ==> filled[i].id != filled[k].id
    ensures RestoredRow(filled, RedactedRow(filled[k])) == filled[k]
  {
    LookupFirst(filled, k);
    hide Lookup;
  }

  ghost predicate Within(ks: seq<nat>, n: nat) { forall i {:trigger ks[i]} :: 0 <= i < |ks| ==> ks[i] < n }

  ghost predicate Different(ks: seq<nat>) { forall i, j {:trigger ks[i], ks[j]} :: 0 <= i < j < |ks| ==> ks[i] != ks[j] }

  ghost function Pick(ps: seq<Pair>, ks: seq<nat>): (r: seq<Pair>)
    requires Within(ks, |ps|)
    ensures |r| == |ks| && forall i :: 0 <= i < |ks| ==> r[i] == ps[ks[i]]
  {
    seq(|ks|, i requires 0 <= i < |ks| => ps[ks[i]])
  }

  lemma PickMore(ps: seq<Pair>, ks: seq<nat>)
    requires Within(ks, |ps|) && ks != []
    ensures var front := ks[..|ks| - 1]; Within(front, |ps|) && Pick(ps, ks) == Pick(ps, front) + [ps[ks[|ks| - 1]]]
  {
  }

  lemma FilledShown(ps: seq<Pair>, k: nat)
    requires k < |ps| && Proper(ps) && DistinctIds(Filled(ps))
    ensures RestoredRow(Filled(ps), Redacted(ps)[k]) == Filled(ps)[k] && !EmptyRow(Filled(ps)[k])
    ensures Redacted(ps)[k].id == Filled(ps)[k].id && Filled(ps)[k].id != ""
  {
    FilledHaveIds(ps, k);
    assert ps[k] == ps[k];
    RowRoundTrip(Filled(ps), k);
    hide Filled, Lookup;
  }

  lemma {:induction false} PickedMerge(ps: seq<Pair>, ks: seq<nat>)
    requires Proper(ps) && DistinctIds(Filled(ps)) && Within(ks, |ps|) && Different(ks)
    ensures Merged(Filled(ps), Pick(Redacted(ps), ks)) == Pick(Filled(ps), ks)
  {
    hide Filled, Redacted, RestoredRow, Proper, Ids, Pick, DistinctIds, Merged, EmptyRow;
    if ks == [] {
      NoneMerged(Filled(ps));
    } else {
      var front, k := ks[..|ks| - 1], ks[|ks| - 1];
      PickMore(Redacted(ps), ks);
      PickMore(Filled(ps), ks);
      PickedMerge(ps, front);
      FilledShown(ps, k);
      NotYetPicked(ps, front, k);
      MergedMore(Filled(ps), Pick(Redacted(ps), front), Redacted(ps)[k]);
    }
  }

  lemma NotYetPicked(ps: seq<Pair>, ks: seq<nat>, k: nat)
    requires k < |ps| && DistinctIds(Filled(ps)) && Within(ks, |ps|) && k !in ks
    ensures Redacted(ps)[k].id !in Ids(Pick(Redacted(ps), ks))
  {
    hide Filled, Redacted, Ids, DistinctIds;
    var shown := Pick(Redacted(ps), ks);
    forall i | 0 <= i < |shown| ensures shown[i].id != Redacted(ps)[k].id {
      assert ks[i] != k;
      ShownIdsDiffer(ps, ks[i], k);
    }
    NotAmong(shown, Redacted(ps)[k].id);
  }

  lemma ShownIdsDiffer(ps: seq<Pair>, a: nat, b: nat)
    requires a < |ps| && b < |ps| && a != b && DistinctIds(Filled(ps))
    ensures Redacted(ps)[a].id != Redacted(ps)[b].id
  {
    hide *;
    IdsShown(ps, a);
    IdsShown(ps, b);
    if a < b { DistinctAt(Filled(ps), a, b); } else { DistinctAt(Filled(ps), b, a); }
  }

  lemma DistinctAt(ps: seq<Pair>, a: nat, b: nat)
    requires DistinctIds(ps) && a < b < |ps|
    ensures ps[a].id != ps[b].id
  {
  }

  lemma NotAmong(ps: seq<Pair>, id: string)
    requires forall i {:trigger ps[i]} :: 0 <= i < |ps| ==> ps[i].id != id
    ensures id !in Ids(ps)
  {
  }

  /** Any selection of the shown rows, in any order, restores exactly those rows with their secrets. */
  lemma SelectionRestores(ps: seq<Pair>, ks: seq<nat>)
    requires Proper(ps) && DistinctIds(Filled(ps)) && ks != [] && Within(ks, |ps|) && Different(ks)
    ensures Restored(Rows(Pick(Redacted(ps), ks)), Rows(ps)) == Rows(Pick(Filled(ps), ks))
  {
    hide Filled, Merged, Redacted, HasId, Proper, DistinctIds, Different;
    PickedMerge(ps, ks);
    var picked := Pick(Filled(ps), ks);
    forall i | 0 <= i < |picked| ensures HasId(picked[i]) { FilledHaveIds(ps, ks[i]); }
    FilledKeeps(picked);
  }

  lemma {:induction false} MergedShorter(stored: seq<Pair>, subs: seq<Pair>)
    ensures |Merged(stored, subs)| <= |subs|
    ensures forall i, j {:trigger subs[i], subs[j]} :: 0 <= i < j < |subs| && subs[i].id == subs[j].id != "" ==> |Merged(stored, subs)| < |subs|
  {
    hide RestoredRow;
    if subs != [] {
      var front := subs[..|subs| - 1];
      MergedShorter(stored, front);
      forall i, j | 0 <= i < j < |subs| && subs[i].id == subs[j].id != "" ensures |Merged(stored, subs)| < |subs| {
        if j == |subs| - 1 { assert front[i].id in Ids(front); } else { assert front[i].id == front[j].id; }
      }
    }
  }

  /** Sending back all rows restores all of them if and only if the ids, the generated ones included, are distinct. */
  lemma AllRowsRestoreIff(ps: seq<Pair>)
    requires Proper(ps) && ps != []
    ensures Restored(Rows(Redacted(ps)), Rows(ps)) == Rows(Filled(ps)) <==> DistinctIds(Filled(ps))
  {
    hide Filled, Merged, RestoredRow, RedactedRow, Trim;
    if DistinctIds(Filled(ps)) {
      var ks: seq<nat> := seq(|ps|, i requires 0 <= i < |ps| => i);
      SelectionRestores(ps, ks);
      assert Pick(Redacted(ps), ks) == Redacted(ps);
      assert Pick(Filled(ps), ks) == Filled(ps);
    } else {
      var filled := Filled(ps);
      var i, j :| 0 <= i < j < |filled| && filled[i].id == filled[j].id;
      FilledHaveIds(ps, i);
      IdsShown(ps, i);
      IdsShown(ps, j);
      NotBlank(filled[i]);
      MergedShorter(filled, Redacted(ps));
    }
  }

  lemma IdsShown(ps: seq<Pair>, k: nat)
    requires k < |ps|
    ensures k < |Redacted(ps)| && Redacted(ps)[k].id == Filled(ps)[k].id
  {
  }

  lemma NotBlank(p: Pair)
    requires HasId(p)
    ensures p.id != ""
  {
  }

  /** A blank id is filled with a name that another row may already have; then a row is lost. */
  lemma GeneratedIdMayCollide(ps: seq<Pair>, i: nat, j: nat)
    requires Proper(ps) && i < |ps| && j < |ps| && i != j
    requires Trim(ps[i].id) == "" && ps[j].id == GeneratedId(i)
    ensures Restored(Rows(Redacted(ps)), Rows(ps)) != Rows(Filled(ps))
  {
    GeneratedNotBlank(i);
    AllRowsRestoreIff(ps);
    hide Trim, GeneratedId, Restored, Redacted;
    assert Filled(ps)[i].id == Filled(ps)[j].id;
  }
}
