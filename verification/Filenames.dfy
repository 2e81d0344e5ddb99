/** Names of published files: limits in bytes, and the numbered variants of a name that is
    already taken. */
module Filenames {
  import opened Decimals
  import opened Runes

  const DEFAULT_LENGTH: nat := 120
  const MIN_LENGTH: nat := 16
  const MAX_LENGTH: nat := 240
  const MAX_CONFLICTS: nat := 10000

  function Normalized(max: int): (n: nat)
    ensures 16 <= n <= 240 && (16 <= max <= 240 ==> n == max) && (max <= 0 ==> n == 120)
    ensures (0 < max < 16 ==> n == 16) && (max > 240 ==> n == 240)
  {
    if max <= 0 then DEFAULT_LENGTH else if max < MIN_LENGTH then MIN_LENGTH else if max > MAX_LENGTH then MAX_LENGTH else max
  }

  // ---------- truncation ----------

  /** The longest prefix of whole runes within the limit. */
  function Fit(s: string, max: nat): (r: string)
    ensures r <= s && Bytes(r) <= max
    ensures r != s ==> |r| < |s| && Bytes(s[..|r| + 1]) > max
  {
    if Bytes(s) <= max then s
    else
      var front := s[..|s| - 1];
      var r := Fit(front, max);
      assert s[..|r| + 1] == if r == front then s else front[..|r| + 1];
      r
  }

  function Truncated(s: string, max: nat): string { if max == 0 then "" else Trim(Fit(s, max)) }

  lemma {:induction false} BytesMonotone(s: string, n: nat)
    requires n <= |s|
    ensures Bytes(s[..n]) <= Bytes(s)
  {
    BytesAppend(s[..n], s[n..]);
    assert s == s[..n] + s[n..];
  }

  /** Copies rune by rune until one does not fit. */
  method TruncateUTF8Bytes(s: string, max: int) returns (r: string)
    ensures r == if max <= 0 then "" else Truncated(s, max)
  {
    if max <= 0 { return ""; }
    var built: string, size: nat := "", 0;
    var n := 0;
    while n < |s| && size + Width(s[n]) <= max
      invariant n <= |s| && built == s[..n] && size == Bytes(built) <= max
    {
      assert s[..n + 1][..n] == s[..n];
      built, size := built + [s[n]], size + Width(s[n]);
      n := n + 1;
    }
    FitIs(s, max, n);
    return Trim(built);
  }

  lemma FitIs(s: string, max: nat, n: nat)
    requires n <= |s| && Bytes(s[..n]) <= max && (n < |s| ==> Bytes(s[..n]) + Width(s[n]) > max)
    ensures Fit(s, max) == s[..n]
  {
    var r := Fit(s, max);
    if n < |s| { assert s[..n + 1][..n] == s[..n]; }
    if |r| < n {
      assert s[..n][..|r| + 1] == s[..|r| + 1];
      BytesMonotone(s[..n], |r| + 1);
    } else if n < |r| {
      assert r[..n + 1] == s[..n + 1];
      BytesMonotone(r, n + 1);
    }
  }

  /** What is left is the longest prefix of whole runes within the limit, trimmed. */
  lemma TruncatedIs(s: string, max: nat) returns (n: nat)
    requires max > 0
    ensures n <= |s| && Truncated(s, max) == Trim(s[..n]) && Bytes(s[..n]) <= max && (n < |s| ==> Bytes(s[..n + 1]) > max)
  {
    var r := Fit(s, max);
    n := |r|;
    hide Bytes, Trim, Fit;
    assert r == s[..n];
  }

  lemma TruncatedBytes(s: string, max: nat)
    ensures Bytes(Truncated(s, max)) <= max
  {
    TrimBytes(Fit(s, max));
  }

  // ---------- composing a name ----------

  function Named(stem: string): string { if Trim(stem) == "" then "media" else Trim(stem) }

  function KeptExt(ext: string, suffix: string, limit: nat): string { if Bytes(ext) + Bytes(suffix) >= limit then "" else ext }

  function KeptSuffix(suffix: string, limit: nat): string
    requires limit > 0
  {
    if Bytes(suffix) >= limit then Truncated(suffix, limit - 1) else suffix
  }

  function Available(ext: string, suffix: string, limit: nat): (n: nat)
    requires limit > 0
    ensures n >= 1
  {
    var n := limit - Bytes(KeptExt(ext, suffix, limit)) - Bytes(KeptSuffix(suffix, limit));
    if n < 1 then 1 else n
  }

  function Head(named: string, available: nat): string {
    if Truncated(named, available) == "" then Truncated("media", available) else Truncated(named, available)
  }

  function Composed(stem: string, ext: string, suffix: string, max: int): string {
    var limit := Normalized(max);
    Head(Named(stem), Available(ext, suffix, limit)) + KeptSuffix(suffix, limit) + KeptExt(ext, suffix, limit)
  }

  method ComposeFilename(stem: string, ext: string, suffix: string, max: int) returns (r: string)
    ensures r == Composed(stem, ext, suffix, max)
  {
    hide Truncated, Bytes;
    var limit := Normalized(max);
    var s, e, x := Trim(stem), ext, suffix;
    if s == "" { s := "media"; }
    if Bytes(e) + Bytes(x) >= limit { e := ""; }
    if Bytes(x) >= limit { x := TruncateUTF8Bytes(x, limit - 1); }
    var available := limit - Bytes(e) - Bytes(x);
    if available < 1 { available := 1; }
    s := TruncateUTF8Bytes(s, available);
    if s == "" { s := TruncateUTF8Bytes("media", available); }
    return s + x + e;
  }

  /** No name is longer than the limit, and none is empty, whatever the parts are. */
  lemma ComposedFits(stem: string, ext: string, suffix: string, max: int)
    ensures 1 <= Bytes(Composed(stem, ext, suffix, max)) <= Normalized(max)
  {
    var limit := Normalized(max);
    var head, x, e := Head(Named(stem), Available(ext, suffix, limit)), KeptSuffix(suffix, limit), KeptExt(ext, suffix, limit);
    HeadFits(Named(stem), Available(ext, suffix, limit));
    PartsFit(ext, suffix, limit);
    BytesAppend(head, x);
    BytesAppend(head + x, e);
    hide Bytes, Head, KeptSuffix, KeptExt, Named, Normalized;
  }

  /** A name that fits is the trimmed stem, the suffix and the extension, complete. */
  lemma ShortNameKept(stem: string, ext: string, suffix: string, max: int)
    requires Trim(stem) != "" && Bytes(Trim(stem)) + Bytes(suffix) + Bytes(ext) <= Normalized(max)
    ensures Composed(stem, ext, suffix, max) == Trim(stem) + suffix + ext
  {
    NotEmpty(Trim(stem));
    TrimIsTight(stem);
    hide Bytes, Trim;
  }

  lemma NotEmpty(s: string)
    requires s != ""
    ensures Bytes(s) >= 1
  {
  }

  /** A longer name keeps suffix and extension complete, as long as one byte is left for the stem, and as much of the
      stem as fits. */
  lemma LongNameCut(stem: string, ext: string, suffix: string, max: int) returns (n: nat)
    requires Trim(stem) != "" && Bytes(suffix) + Bytes(ext) < Normalized(max)
    ensures var room, s := Normalized(max) - Bytes(suffix) - Bytes(ext), Trim(stem);
      && n <= |s| && Bytes(s[..n]) <= room && (n < |s| ==> Bytes(s[..n + 1]) > room)
      && (Trim(s[..n]) != "" ==> Composed(stem, ext, suffix, max) == Trim(s[..n]) + suffix + ext)
  {
    hide Bytes, Trim, Truncated, Normalized;
    n := TruncatedIs(Trim(stem), Normalized(max) - Bytes(suffix) - Bytes(ext));
    Roomy(ext, suffix, Normalized(max));
    hide Available, KeptSuffix, KeptExt;
  }

  lemma Roomy(ext: string, suffix: string, limit: nat)
    requires Bytes(suffix) + Bytes(ext) < limit
    ensures KeptExt(ext, suffix, limit) == ext && KeptSuffix(suffix, limit) == suffix
    ensures Available(ext, suffix, limit) == limit - Bytes(suffix) - Bytes(ext)
  {
    hide Bytes, Truncated;
  }

  /** Nothing but white space in the stem: the name is "media". */
  lemma BlankStem(stem: string, ext: string, suffix: string, max: int)
    requires Trim(stem) == "" && Bytes(suffix) + Bytes(ext) + 5 <= Normalized(max)
    ensures Composed(stem, ext, suffix, max) == "media" + suffix + ext
  {
    AsciiBytes("media");
    TightStays("media");
    hide Bytes, Trim;
  }

  lemma TightStays(s: string)
    requires Tight(s)
    ensures Trim(s) == s
  {
  }

  lemma HeadFits(named: string, n: nat)
    requires n >= 1
    ensures 1 <= Bytes(Head(named, n)) <= n
  {
    TruncatedBytes(named, n);
    TruncatedBytes("media", n);
    MediaTruncated(n);
    hide Truncated, Bytes;
  }

  lemma PartsFit(ext: string, suffix: string, limit: nat)
    requires limit >= 2
    ensures Bytes(KeptSuffix(suffix, limit)) + Bytes(KeptExt(ext, suffix, limit)) < limit
  {
    TruncatedBytes(suffix, limit - 1);
    assert Bytes("") == 0;
    hide Truncated, Bytes;
  }

  lemma MediaTruncated(n: nat)
    requires n >= 1
    ensures Truncated("media", n) != ""
  {
    var r := Fit("media", n);
    assert "media"[..1] == "m" && Bytes("m") == 1;
    assert r != "" && r[0] == 'm';
    if TrimLeft(r) == r { TrimRightKeeps(r); }
  }

  lemma {:induction false} TrimRightKeeps(s: string)
    requires s != "" && !IsSpace(s[0])
    ensures TrimRight(s) != ""
  {
    if IsSpace(s[|s| - 1]) { TrimRightKeeps(s[..|s| - 1]); }
  }

  // ---------- the numbered variants ----------

  /** The place of the last dot, or the end. */
  function LastDot(name: string): (k: nat)
    ensures k <= |name| && (k < |name| ==> name[k] == '.')
  {
    if name == "" then 0
    else
      var n := |name| - 1;
      if name[n] == '.' then n
      else
        var k := LastDot(name[..n]);
        if k == n then n + 1 else k
  }

  /** filepath.Ext: from the last dot on. */
  function Ext(name: string): string { name[LastDot(name)..] }

  function Stem(name: string): string { name[..LastDot(name)] }

  /** Stem and extension make up the name; the extension starts with the last dot. */
  lemma SplitName(name: string)
    ensures Stem(name) + Ext(name) == name
    ensures '.' in name <==> Ext(name) != ""
    ensures Ext(name) != "" ==> Ext(name)[0] == '.' && '.' !in Ext(name)[1..]
  {
    NoLaterDot(name);
    hide LastDot;
  }

  lemma {:induction false} NoLaterDot(name: string)
    ensures forall i :: LastDot(name) < i < |name| ==> name[i] != '.'
    ensures LastDot(name) == |name| ==> '.' !in name
  {
    if name != "" {
      var n := |name| - 1;
      NoLaterDot(name[..n]);
      if name[n] != '.' {
        assert forall i :: 0 <= i < n ==> name[i] == name[..n][i];
      }
    }
  }

  function Numbered(n: nat): string { "(" + Decimal(n) + ")" }

  /** Variant 0 is the name itself. */
  function Candidate(name: string, n: nat, max: int): string {
    if n == 0 then name else Composed(Stem(name), Ext(name), Numbered(n), max)
  }

  lemma {:induction false} AsciiBytes(s: string)
    requires forall k :: 0 <= k < |s| ==> s[k] < '\U{80}'
    ensures Bytes(s) == |s|
  {
    if s != "" { AsciiBytes(s[..|s| - 1]); }
  }

  lemma NumberedShort(n: nat)
    requires n <= MAX_CONFLICTS
    ensures Bytes(Numbered(n)) <= 7
  {
    forall k | 0 <= k < |Numbered(n)| ensures Numbered(n)[k] < '\U{80}' {
      if 0 < k < |Numbered(n)| - 1 { OnlyDigits(n, k - 1); assert Numbered(n)[k] == Decimal(n)[k - 1]; }
    }
    AsciiBytes(Numbered(n));
    assert Pow10(5) == 100000;
    DecimalLength(n, 5);
  }

  /** A variant that fits is the name with the number in brackets before its extension. */
  lemma VariantName(name: string, n: nat, max: int)
    requires n >= 1 && Stem(name) != "" && Tight(Stem(name)) && Bytes(Stem(name)) + Bytes(Numbered(n)) + Bytes(Ext(name)) <= Normalized(max)
    ensures Candidate(name, n, max) == Stem(name) + "(" + Decimal(n) + ")" + Ext(name)
  {
    hide *;
    TightStays(Stem(name));
    ShortNameKept(Stem(name), Ext(name), Numbered(n), max);
    CandidateIs(name, n, max);
    InBrackets(Stem(name), n);
  }

  lemma InBrackets(s: string, n: nat)
    ensures s + Numbered(n) == s + "(" + Decimal(n) + ")"
  {
  }

  /** A number in brackets can be read back from the end of a text. */
  lemma NumberReadBack(a: string, m: nat, b: string, n: nat)
    requires a + Numbered(m) == b + Numbered(n)
    ensures m == n && a == b
  {
    var s, x, y := a + Numbered(m), Decimal(m), Decimal(n);
    if |x| < |y| {
      ReadBackLonger(a, m, b, n);
    } else if |y| < |x| {
      ReadBackLonger(b, n, a, m);
    } else {
      assert x == s[|a| + 1..|s| - 1];
      assert y == s[|b| + 1..|s| - 1];
      DecimalInjective(m, n);
      assert a == s[..|a|] && b == s[..|b|];
      hide Decimal;
    }
  }

  lemma ReadBackLonger(a: string, m: nat, b: string, n: nat)
    requires |Decimal(m)| < |Decimal(n)|
    ensures a + Numbered(m) != b + Numbered(n)
  {
    if a + Numbered(m) == b + Numbered(n) {
      var k := |a| - |b| - 1;
      assert (a + Numbered(m))[|a|] == '(';
      assert (b + Numbered(n))[|a|] == Decimal(n)[k];
      OnlyDigits(n, k);
    }
  }

  /** A numbered variant is something, the whole number, and the extension or nothing. */
  lemma CandidateShape(name: string, n: nat, max: int) returns (head: string, ext: string)
    requires 1 <= n <= MAX_CONFLICTS
    ensures Candidate(name, n, max) == head + Numbered(n) + ext && (ext == "" || ext == Ext(name))
  {
    NumberedShort(n);
    var limit := Normalized(max);
    head, ext := Head(Named(Stem(name)), Available(Ext(name), Numbered(n), limit)), KeptExt(Ext(name), Numbered(n), limit);
    hide Head, Named, Available, Bytes, Numbered, Ext, Stem;
  }

  /**
   * The variants 1..10000 of a name are pairwise different and within the limit, unless the name itself ends in a
   * closing bracket: its extension could then pass for a number once it is dropped from the longer variants.
   */
  lemma CandidatesDiffer(name: string, m: nat, n: nat, max: int)
    requires 1 <= m < n <= MAX_CONFLICTS
    requires NoBracketLast(name)
    ensures Candidate(name, m, max) != Candidate(name, n, max)
    ensures Bytes(Candidate(name, n, max)) <= Normalized(max)
  {
    hide *;
    ComposedFits(Stem(name), Ext(name), Numbered(n), max);
    CandidateIs(name, n, max);
    ExtNoBracket(name);
    var g, d := CandidateShape(name, m, max);
    var h, e := CandidateShape(name, n, max);
    TailsDiffer(g, m, d, h, n, e);
  }

  lemma CandidateIs(name: string, n: nat, max: int)
    requires n >= 1
    ensures Candidate(name, n, max) == Composed(Stem(name), Ext(name), Numbered(n), max)
  {
    hide Composed;
  }

  lemma ExtLast(name: string)
    ensures Ext(name) != "" ==> name != "" && Ext(name)[|Ext(name)| - 1] == name[|name| - 1]
  {
    hide LastDot;
  }

  lemma ExtNoBracket(name: string)
    requires NoBracketLast(name)
    ensures NoBracketLast(Ext(name)) && NoBracketLast("")
  {
    ExtLast(name);
    hide Ext;
  }

  predicate NoBracketLast(s: string) { s != "" ==> s[|s| - 1] != ')' }

  lemma TailsDiffer(g: string, m: nat, d: string, h: string, n: nat, e: string)
    requires m != n && (d == e || d == "" || e == "") && NoBracketLast(d) && NoBracketLast(e)
    ensures g + Numbered(m) + d != h + Numbered(n) + e
  {
    hide Numbered;
    var a, b := g + Numbered(m) + d, h + Numbered(n) + e;
    LastRune(g, m, d);
    LastRune(h, n, e);
    if a == b && d == e {
      assert g + Numbered(m) == a[..|a| - |d|] && h + Numbered(n) == b[..|b| - |e|];
      NumberReadBack(g, m, h, n);
    }
  }

  lemma LastRune(g: string, n: nat, e: string)
    ensures var s := g + Numbered(n) + e; s != "" && s[|s| - 1] == if e == "" then ')' else e[|e| - 1]
  {
    assert g + Numbered(n) + "" == g + Numbered(n);
  }
}
