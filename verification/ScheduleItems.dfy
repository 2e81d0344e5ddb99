/** Checking and normalising the target list of an archive schedule before it is saved and again when it
    is claimed. */
module ScheduleItems {
  import opened JobTables
  import opened Runes

  const MIN_INTERVAL: int := 5
  const MAX_INTERVAL: int := 43200
  const MAX_ITEMS: nat := 200

  datatype Item = Item(kind: Kind, input: string)

  datatype Problem = TooOften | TooRare | NoItems | TooManyItems | BlankInput | UnsupportedKind

  datatype Outcome = Prepared(items: seq<Item>) | Rejected(problem: Problem)

  /** The lower-case table of strings.ToLower. */
  datatype Text = Text(lower: char -> char)

  function Lower(u: Text, s: string): string { seq(|s|, i requires 0 <= i < |s| => u.lower(s[i])) }

  function Trimmed(u: Text, x: Item): Item { x.(input := Trim(x.input)) }

  function Key(u: Text, x: Item): (Kind, string) { (x.kind, Lower(u, x.input)) }

  /** The problem of one item, if it has one. */
  predicate Bad(u: Text, x: Item, p: Problem) {
    if Trim(x.input) == "" then p == BlankInput
    else p == UnsupportedKind && x.kind != User && x.kind != List && x.kind != Following
  }

  predicate Good(u: Text, x: Item) {
    Trim(x.input) != "" && (x.kind == User || x.kind == List || x.kind == Following)
  }

  ghost function Keys(u: Text, xs: seq<Item>): set<(Kind, string)> {
    set i | 0 <= i < |xs| :: Key(u, xs[i])
  }

  ghost function Targets(u: Text, xs: seq<Item>): set<(Kind, string)> {
    set i | 0 <= i < |xs| :: Key(u, Trimmed(u, xs[i]))
  }

  /** The trimmed items, a repeated target only at its first place. */
  ghost function Kept(u: Text, xs: seq<Item>): seq<Item> {
    if xs == [] then []
    else
      var rest, x := Kept(u, xs[..|xs| - 1]), Trimmed(u, xs[|xs| - 1]);
      if Key(u, x) in Keys(u, rest) then rest else rest + [x]
  }

  // ---------- what is kept ----------

  lemma KeptOneMore(u: Text, xs: seq<Item>, x: Item)
    ensures Kept(u, xs + [x]) == if Key(u, Trimmed(u, x)) in Keys(u, Kept(u, xs)) then Kept(u, xs) else Kept(u, xs) + [Trimmed(u, x)]
  {
    assert (xs + [x])[..|xs|] == xs;
  }

  lemma KeysOneMore(u: Text, xs: seq<Item>, x: Item)
    ensures Keys(u, xs + [x]) == Keys(u, xs) + {Key(u, x)}
  {
    forall k | k in Keys(u, xs) ensures k in Keys(u, xs + [x]) {
      var i :| 0 <= i < |xs| && Key(u, xs[i]) == k;
      assert (xs + [x])[i] == xs[i];
    }
    assert (xs + [x])[|xs|] == x;
  }

  ghost predicate DistinctKeys(u: Text, xs: seq<Item>) {
    forall i, j {:trigger xs[i], xs[j]} :: 0 <= i < j < |xs| ==> Key(u, xs[i]) != Key(u, xs[j])
  }

  /** No target is kept twice, every target given is kept, and nothing else is. */
  lemma {:induction false} KeptOncePerTarget(u: Text, xs: seq<Item>)
    ensures DistinctKeys(u, Kept(u, xs))
    ensures Keys(u, Kept(u, xs)) == Targets(u, xs)
    ensures |Kept(u, xs)| <= |xs| && (xs != [] ==> Kept(u, xs) != [])
  {
    hide Trimmed, Key;
    if xs != [] {
      var ys, x := xs[..|xs| - 1], Trimmed(u, xs[|xs| - 1]);
      KeptOncePerTarget(u, ys);
      var rest := Kept(u, ys);
      KeysOneMore(u, rest, x);
      TargetsOneMore(u, xs);
      if Key(u, x) !in Keys(u, rest) {
        forall i, j | 0 <= i < j < |rest + [x]| ensures Key(u, (rest + [x])[i]) != Key(u, (rest + [x])[j]) {
          if j == |rest| { assert Key(u, rest[i]) in Keys(u, rest); }
        }
      }
    }
  }

  lemma TargetsOneMore(u: Text, xs: seq<Item>)
    requires xs != []
    ensures Targets(u, xs) == Targets(u, xs[..|xs| - 1]) + {Key(u, Trimmed(u, xs[|xs| - 1]))}
  {
    hide Trimmed, Key;
    var ys := xs[..|xs| - 1];
    forall k | k in Targets(u, xs) ensures k in Targets(u, ys) + {Key(u, Trimmed(u, xs[|xs| - 1]))} {
      var i :| 0 <= i < |xs| && Key(u, Trimmed(u, xs[i])) == k;
      if i < |ys| { assert ys[i] == xs[i]; }
    }
    forall k | k in Targets(u, ys) ensures k in Targets(u, xs) {
      var i :| 0 <= i < |ys| && Key(u, Trimmed(u, ys[i])) == k;
      assert ys[i] == xs[i];
    }
  }

  predicate Normal(u: Text, x: Item) { Good(u, x) && Trimmed(u, x) == x }

  ghost predicate AllGood(u: Text, xs: seq<Item>) { forall i :: 0 <= i < |xs| ==> Good(u, xs[i]) }

  ghost predicate AllNormal(u: Text, xs: seq<Item>) { forall i :: 0 <= i < |xs| ==> Normal(u, xs[i]) }

  lemma {:induction false} KeptNormal(u: Text, xs: seq<Item>)
    requires AllGood(u, xs)
    ensures AllNormal(u, Kept(u, xs))
  {
    hide Keys, Key, Trim;
    if xs != [] {
      KeptNormal(u, xs[..|xs| - 1]);
      TrimIsTight(xs[|xs| - 1].input);
      assert Good(u, xs[|xs| - 1]);
    }
  }

  lemma {:induction false} NormalKept(u: Text, xs: seq<Item>)
    requires AllNormal(u, xs) && DistinctKeys(u, xs)
    ensures Kept(u, xs) == xs
  {
    hide Key, Keys, Good;
    if xs != [] {
      var ys, x := xs[..|xs| - 1], xs[|xs| - 1];
      assert Normal(u, x) && Trimmed(u, x) == x;
      LastIsNew(u, xs);
      hide Trimmed;
      NormalKept(u, ys);
      assert ys + [x] == xs;
    }
  }

  lemma LastIsNew(u: Text, xs: seq<Item>)
    requires DistinctKeys(u, xs) && xs != []
    ensures DistinctKeys(u, xs[..|xs| - 1]) && Key(u, xs[|xs| - 1]) !in Keys(u, xs[..|xs| - 1])
  {
    hide Key;
  }

  /** A prepared list is left alone by preparing it again. */
  lemma KeptTwice(u: Text, xs: seq<Item>)
    requires AllGood(u, xs)
    ensures Kept(u, Kept(u, xs)) == Kept(u, xs) && AllGood(u, Kept(u, xs))
  {
    KeptNormal(u, xs);
    KeptOncePerTarget(u, xs);
    NormalKept(u, Kept(u, xs));
  }

  // ---------- the order of what is kept ----------

  /** No earlier item has the same target. */
  ghost predicate FirstOfTarget(u: Text, xs: seq<Item>, k: nat)
    requires k < |xs|
  {
    Key(u, Trimmed(u, xs[k])) !in Targets(u, xs[..k])
  }

  /** `ys` are the trimmed items at the places `at`, each the first of its target. */
  ghost predicate KeptAt(u: Text, xs: seq<Item>, ys: seq<Item>, at: seq<nat>) {
    && |at| == |ys|
    && (forall i {:trigger at[i]} :: 0 <= i < |at| ==>
          at[i] < |xs| && ys[i].kind == xs[at[i]].kind && ys[i].input == Trim(xs[at[i]].input) && FirstOfTarget(u, xs, at[i]))
    && (forall i, j {:trigger at[i], at[j]} :: 0 <= i < j < |at| ==> at[i] < at[j])
  }

  /** The list keeps the order in which the targets were first named, each as it was written there. */
  lemma {:induction false} KeptInOrder(u: Text, xs: seq<Item>) returns (at: seq<nat>)
    ensures KeptAt(u, xs, Kept(u, xs), at)
  {
    hide *;
    if xs == [] {
      at := [];
      KeptNone(u);
      KeptAtNone(u);
    } else {
      var n := |xs| - 1;
      var front, x := xs[..n], xs[n];
      assert xs == front + [x];
      at := KeptInOrder(u, front);
      KeptKeys(u, front);
      KeptOneMore(u, front, x);
      KeptAtMore(u, front, x, Kept(u, front), at);
      if Key(u, Trimmed(u, x)) !in Keys(u, Kept(u, front)) { at := at + [n]; }
    }
  }

  lemma KeptAtNone(u: Text)
    ensures KeptAt(u, [], [], [])
  {
  }

  lemma KeptKeys(u: Text, xs: seq<Item>)
    ensures Keys(u, Kept(u, xs)) == Targets(u, xs)
  {
    KeptOncePerTarget(u, xs);
  }

  lemma KeptAtMore(u: Text, front: seq<Item>, x: Item, ys: seq<Item>, at: seq<nat>)
    requires KeptAt(u, front, ys, at)
    ensures KeptAt(u, front + [x], ys, at)
    ensures Key(u, Trimmed(u, x)) !in Targets(u, front) ==> KeptAt(u, front + [x], ys + [Trimmed(u, x)], at + [|front|])
  {
    hide Targets, Trim, Key;
    var xs := front + [x];
    forall k: nat | k < |front| ensures FirstOfTarget(u, xs, k) == FirstOfTarget(u, front, k) { assert xs[..k] == front[..k]; }
    assert xs[..|front|] == front && xs[|front|] == x;
    hide FirstOfTarget;
  }

  // ---------- the whole check ----------

  /** The first item that is not good decides the error. */
  ghost predicate FirstProblem(u: Text, xs: seq<Item>, p: Problem) {
    exists i :: 0 <= i < |xs| && AllGood(u, xs[..i]) && Bad(u, xs[i], p)
  }

  ghost predicate Accepts(u: Text, interval: int, xs: seq<Item>) {
    MIN_INTERVAL <= interval <= MAX_INTERVAL && 1 <= |xs| <= MAX_ITEMS && AllGood(u, xs)
  }

  method Prepare(u: Text, interval: int, xs: seq<Item>) returns (r: Outcome)
    ensures r.Prepared? <==> Accepts(u, interval, xs)
    ensures r.Prepared? ==> r.items == Kept(u, xs)
    ensures interval < MIN_INTERVAL ==> r == Rejected(TooOften)
    ensures interval > MAX_INTERVAL ==> r == Rejected(TooRare)
    ensures MIN_INTERVAL <= interval <= MAX_INTERVAL && xs == [] ==> r == Rejected(NoItems)
    ensures MIN_INTERVAL <= interval <= MAX_INTERVAL && |xs| > MAX_ITEMS ==> r == Rejected(TooManyItems)
    ensures MIN_INTERVAL <= interval <= MAX_INTERVAL && 1 <= |xs| <= MAX_ITEMS && r.Rejected? ==> FirstProblem(u, xs, r.problem)
  {
    hide Trim, Kept, Key, Keys;
    if interval < MIN_INTERVAL { return Rejected(TooOften); }
    if interval > MAX_INTERVAL { return Rejected(TooRare); }
    if |xs| == 0 { return Rejected(NoItems); }
    if |xs| > MAX_ITEMS { return Rejected(TooManyItems); }
    var items: seq<Item> := [];
    var seen: set<(Kind, string)> := {};
    KeptNone(u);
    for n := 0 to |xs|
      invariant AllGood(u, xs[..n]) && items == Kept(u, xs[..n]) && seen == Keys(u, items)
    {
      var x := Trimmed(u, xs[n]);
      assert xs[..n + 1] == xs[..n] + [xs[n]];
      KeptOneMore(u, xs[..n], xs[n]);
      KeysOneMore(u, items, x);
      if x.input == "" {
        assert Bad(u, xs[n], BlankInput);
        return Rejected(BlankInput);
      }
      if x.kind != User && x.kind != List && x.kind != Following {
        assert Bad(u, xs[n], UnsupportedKind);
        return Rejected(UnsupportedKind);
      }
      assert Good(u, xs[n]);
      if Key(u, x) !in seen {
        seen := seen + {Key(u, x)};
        items := items + [x];
      }
    }
    assert xs[..|xs|] == xs;
    return Prepared(items);
  }

  lemma KeptNone(u: Text)
    ensures Kept(u, []) == [] && Keys(u, []) == {}
  {
  }
}
