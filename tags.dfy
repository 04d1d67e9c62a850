/**
 * The tag list of a subscription: `preg_split` of `TagsToAssign` on the pattern `\s*,\s*`
 * with no limit and the flag `PREG_SPLIT_NO_EMPTY`.
 *
 * `PregSplit` follows the regular-expression engine: it finds the leftmost
 * match of "whitespace, a comma, whitespace" (both runs greedy), emits the
 * piece before it unless that piece is empty, and continues after the match.
 * `SplitReference` says the same thing the way a reader would: cut the string
 * at every comma, remove the whitespace next to each comma, drop the empty
 * segments. `PregSplitIsReference` proves the two equal on every string.
 */
module Tags {
  import opened Wrappers

  /** PCRE's `\s` without the UTF flag: space, tab, line feed, vertical tab, form feed, carriage return. */
  predicate IsSpace(c: char)
  {
    c == ' ' || c == '\t' || c == '\n' || c == '\U{0B}' || c == '\U{0C}' || c == '\r'
  }

  /** The first position at or after `i` that does not hold whitespace. */
  function SkipSpaces(t: string, i: nat): (j: nat)
    requires i <= |t|
    decreases |t| - i
    ensures i <= j <= |t|
    ensures forall k | i <= k < j :: IsSpace(t[k])
    ensures j == |t| || !IsSpace(t[j])
  {
    if i < |t| && IsSpace(t[i]) then SkipSpaces(t, i + 1) else i
  }

  /** The position found by `SkipSpaces` is the only one with just spaces before it and none on it. */
  lemma SkipSpacesUnique(t: string, i: nat, j: nat)
    requires i <= j <= |t|
    requires forall k | i <= k < j :: IsSpace(t[k])
    requires j == |t| || !IsSpace(t[j])
    ensures SkipSpaces(t, i) == j
  {
  }

  /**
   * Where a match of `\s*,\s*` that starts at `i` ends, if one starts there.
   * Greedy `\s*` followed by a comma needs no backtracking: fewer spaces would
   * leave a space, not a comma, in front of the pattern's comma.
   */
  function MatchEnd(t: string, i: nat): (e: Option<nat>)
    requires i <= |t|
    ensures e.Some? ==> i < e.value <= |t|
  {
    var j := SkipSpaces(t, i);
    if j < |t| && t[j] == ',' then Some(SkipSpaces(t, j + 1)) else None
  }

  /** The leftmost match at or after `i`, as (start, end). */
  function FindMatch(t: string, i: nat): (r: Option<(nat, nat)>)
    requires i <= |t|
    decreases |t| - i
    ensures r.Some? ==> i <= r.value.0 < r.value.1 <= |t| && MatchEnd(t, r.value.0) == Some(r.value.1)
    ensures r.Some? ==> forall k | i <= k < r.value.0 :: MatchEnd(t, k).None?
    ensures r.None? ==> forall k | i <= k <= |t| :: MatchEnd(t, k).None?
  {
    if i == |t| then None
    else
      match MatchEnd(t, i)
      case Some(e) => Some((i, e))
      case None => FindMatch(t, i + 1)
  }

  /** A comma at `c` is itself the start of a match. */
  lemma CommaStartsMatch(t: string, c: nat)
    requires c < |t| && t[c] == ','
    ensures MatchEnd(t, c).Some?
  {
  }

  /** `preg_split` of `t` on the pattern `\s*,\s*`, no limit, `PREG_SPLIT_NO_EMPTY`. */
  function PregSplit(t: string): (tags: seq<string>)
    decreases |t|
    ensures forall tag | tag in tags :: tag != "" && ',' !in tag
  {
    match FindMatch(t, 0)
    case None =>
      assert ',' !in t by {
        forall c | 0 <= c < |t| ensures t[c] != ',' {
          if t[c] == ',' { CommaStartsMatch(t, c); }
        }
      }
      if t == "" then [] else [t]
    case Some((m, e)) =>
      assert ',' !in t[..m] by {
        forall c | 0 <= c < m ensures t[c] != ',' {
          if t[c] == ',' { CommaStartsMatch(t, c); }
        }
      }
      (if m == 0 then [] else [t[..m]]) + PregSplit(t[e..])
  }

  // ---------------------------------------------------------------------------
  // The reference reading: cut at commas, trim next to commas, drop empties.
  // ---------------------------------------------------------------------------

  /** Index of the first comma of `t`, if any. */
  function FirstComma(t: string): (c: Option<nat>)
    ensures c.Some? ==> c.value < |t| && t[c.value] == ',' && ',' !in t[..c.value]
    ensures c.None? ==> ',' !in t
  {
    if t == "" then None
    else if t[0] == ',' then Some(0)
    else
      match FirstComma(t[1..])
      case None => None
      case Some(c) => Some(c + 1)
  }

  /** Any comma with no comma before it is the one `FirstComma` finds. */
  lemma FirstCommaUnique(t: string, c: nat)
    requires c < |t| && t[c] == ',' && ',' !in t[..c]
    ensures FirstComma(t) == Some(c)
  {
  }

  /** The segments between commas, like PHP's `explode(',', t)`. */
  function RawSplit(t: string): (parts: seq<string>)
    decreases |t|
    ensures |parts| >= 1
    ensures forall p | p in parts :: ',' !in p
  {
    match FirstComma(t)
    case None => [t]
    case Some(c) => [t[..c]] + RawSplit(t[c + 1..])
  }

  /** The segments glued back together with a comma between each two. */
  function JoinCommas(parts: seq<string>): string
    requires |parts| >= 1
  {
    if |parts| == 1 then parts[0] else parts[0] + "," + JoinCommas(parts[1..])
  }

  /** Cutting at the commas loses nothing. */
  lemma {:induction false} JoinRawSplit(t: string)
    decreases |t|
    ensures JoinCommas(RawSplit(t)) == t
  {
    match FirstComma(t)
    case None =>
    case Some(c) =>
      var rest := RawSplit(t[c + 1..]);
      assert RawSplit(t)[1..] == rest;
      JoinRawSplit(t[c + 1..]);
      assert t == t[..c] + "," + t[c + 1..];
  }

  /** Joining comma-free segments and cutting again gives the segments back. */
  lemma {:induction false} RawSplitJoin(parts: seq<string>)
    requires |parts| >= 1
    requires forall p | p in parts :: ',' !in p
    ensures RawSplit(JoinCommas(parts)) == parts
  {
    if |parts| == 1 {
      assert parts[0] in parts;
    } else {
      var t := JoinCommas(parts);
      var p0 := parts[0];
      var rest := JoinCommas(parts[1..]);
      assert p0 in parts;
      assert t[..|p0|] == p0;
      assert t[|p0| + 1..] == rest;
      FirstCommaUnique(t, |p0|);
      forall p | p in parts[1..] ensures ',' !in p { assert p in parts; }
      RawSplitJoin(parts[1..]);
    }
  }

  /** `x` without its leading whitespace. */
  function TrimStart(x: string): (y: string)
    ensures |y| <= |x| && y == x[|x| - |y|..]
    ensures y == "" || !IsSpace(y[0])
    ensures forall k | 0 <= k < |x| - |y| :: IsSpace(x[k])
  {
    x[SkipSpaces(x, 0)..]
  }

  /** `x` without its trailing whitespace. */
  function TrimEnd(x: string): (y: string)
    decreases |x|
    ensures y <= x
    ensures y == "" || !IsSpace(y[|y| - 1])
    ensures forall k | |y| <= k < |x| :: IsSpace(x[k])
  {
    if |x| > 0 && IsSpace(x[|x| - 1]) then TrimEnd(x[..|x| - 1]) else x
  }

  /**
   * Segment `i` of `parts` with the whitespace next to its commas removed:
   * every segment but the first follows a comma, every one but the last
   * precedes one.
   */
  function TrimPart(parts: seq<string>, i: nat): (r: string)
    requires i < |parts|
    ensures IsTrimOf(parts[i], r, 0 < i, i + 1 < |parts|)
  {
    var x := parts[i];
    var lo := if 0 < i then SkipSpaces(x, 0) else 0;
    var a := x[lo..];
    var y := if i + 1 < |parts| then TrimEnd(a) else a;
    assert IsTrimAt(x, y, lo, 0 < i, i + 1 < |parts|);
    y
  }

  /**
   * `y` is `x` with whitespace cut off its front (only when `front`) and off
   * its back (only when `back`): a contiguous piece of `x` with nothing but
   * whitespace around it.
   */
  predicate IsTrimOf(x: string, y: string, front: bool, back: bool)
  {
    exists lo: nat | lo <= |x| :: IsTrimAt(x, y, lo, front, back)
  }

  /** `y` is the piece of `x` starting at `lo`, and what surrounds it is cut-off whitespace. */
  predicate IsTrimAt(x: string, y: string, lo: nat, front: bool, back: bool)
  {
    lo + |y| <= |x| && x[lo..lo + |y|] == y
    && (forall k | 0 <= k < lo :: IsSpace(x[k]))
    && (forall k | lo + |y| <= k < |x| :: IsSpace(x[k]))
    && (front || lo == 0)
    && (back || lo + |y| == |x|)
  }

  /**
   * Every segment with the whitespace next to its commas removed: segment `i`
   * loses only leading whitespace when a comma precedes it and only trailing
   * whitespace when a comma follows it, and no whitespace is left beside a comma.
   */
  function TrimAtCommas(parts: seq<string>): (r: seq<string>)
    ensures |r| == |parts|
    ensures forall i | 0 <= i < |r| :: IsTrimOf(parts[i], r[i], 0 < i, i + 1 < |parts|)
    ensures forall i | 0 < i < |r| && r[i] != "" :: !IsSpace(r[i][0])
    ensures forall i | 0 <= i < |r| - 1 && r[i] != "" :: !IsSpace(r[i][|r[i]| - 1])
  {
    seq(|parts|, i requires 0 <= i < |parts| => TrimPart(parts, i))
  }

  /** `parts` without its empty strings, in order. */
  function DropEmpty(parts: seq<string>): (r: seq<string>)
    ensures "" !in r
    ensures forall p | p != "" :: multiset(r)[p] == multiset(parts)[p]
  {
    if parts == [] then []
    else
      assert parts == [parts[0]] + parts[1..];
      (if parts[0] == "" then [] else [parts[0]]) + DropEmpty(parts[1..])
  }

  /** The tags as a reader of the configuration screen would describe them. */
  function SplitReference(t: string): seq<string>
  {
    DropEmpty(TrimAtCommas(RawSplit(t)))
  }

  // ---------------------------------------------------------------------------
  // The regular-expression reading equals the reference reading.
  // ---------------------------------------------------------------------------

  /** No match starts before `m` when `t[m - 1]` is not a space and no comma comes before `c >= m`. */
  lemma NoMatchBefore(t: string, c: nat, m: nat, k: nat)
    requires k < m <= c <= |t|
    requires ',' !in t[..c]
    requires !IsSpace(t[m - 1])
    ensures MatchEnd(t, k).None?
  {
  }

  /** The leftmost match swallows the spaces before the first comma and those after it. */
  lemma FindMatchAtFirstComma(t: string, c: nat)
    requires FirstComma(t) == Some(c)
    ensures FindMatch(t, 0) == Some((|TrimEnd(t[..c])|, SkipSpaces(t, c + 1)))
  {
    var m := |TrimEnd(t[..c])|;
    MatchAtTrimmedEnd(t, c);
    forall k | 0 <= k < m ensures MatchEnd(t, k).None? {
      NoMatchBeforeTrimmedEnd(t, c, k);
    }
    LeftmostMatch(t, m, SkipSpaces(t, c + 1));
  }

  /** A match starts where the trailing spaces of the first segment begin. */
  lemma MatchAtTrimmedEnd(t: string, c: nat)
    requires FirstComma(t) == Some(c)
    ensures MatchEnd(t, |TrimEnd(t[..c])|) == Some(SkipSpaces(t, c + 1))
  {
    var x := t[..c];
    var m := |TrimEnd(x)|;
    forall k | m <= k < c ensures IsSpace(t[k]) { assert x[k] == t[k]; }
    SkipSpacesUnique(t, m, c);
  }

  /** No match starts inside the trimmed first segment. */
  lemma NoMatchBeforeTrimmedEnd(t: string, c: nat, k: nat)
    requires FirstComma(t) == Some(c)
    requires k < |TrimEnd(t[..c])|
    ensures MatchEnd(t, k).None?
  {
    var x := t[..c];
    var m := |TrimEnd(x)|;
    assert x[m - 1] == t[m - 1];
    NoMatchBefore(t, c, m, k);
  }

  /** A match with none before it is the one `FindMatch` returns. */
  lemma LeftmostMatch(t: string, m: nat, e: nat)
    requires m <= |t| && MatchEnd(t, m) == Some(e)
    requires forall k | 0 <= k < m :: MatchEnd(t, k).None?
    ensures FindMatch(t, 0) == Some((m, e))
  {
  }

  /** Skipping the spaces at `c + 1` of `t` is skipping the spaces at the start of `t[c + 1..]`. */
  lemma TrimStartAfter(t: string, c: nat)
    requires c < |t|
    ensures t[SkipSpaces(t, c + 1)..] == TrimStart(t[c + 1..])
  {
    var u := t[c + 1..];
    var j := SkipSpaces(t, c + 1);
    forall k | 0 <= k < j - (c + 1) ensures IsSpace(u[k]) { assert u[k] == t[c + 1 + k]; }
    if j < |t| { assert u[j - (c + 1)] == t[j]; }
    SkipSpacesUnique(u, 0, j - (c + 1));
  }

  /** Dropping leading spaces from `u` only shortens its first segment. */
  lemma RawSplitTrimStart(u: string)
    ensures RawSplit(TrimStart(u)) == [TrimStart(RawSplit(u)[0])] + RawSplit(u)[1..]
  {
    match FirstComma(u)
    case None =>
      var v := TrimStart(u);
      assert ',' !in v by {
        forall k | 0 <= k < |v| ensures v[k] != ',' { assert v[k] == u[|u| - |v| + k]; }
      }
      assert FirstComma(v) == None;
    case Some(c) =>
      assert RawSplit(u) == [u[..c]] + RawSplit(u[c + 1..]);
      RawSplitTrimStartComma(u, c);
  }

  lemma RawSplitTrimStartComma(u: string, c: nat)
    requires FirstComma(u) == Some(c)
    ensures RawSplit(TrimStart(u)) == [TrimStart(u[..c])] + RawSplit(u[c + 1..])
  {
    FirstCommaAfterSpaces(u, c);
    TrimStartOfPrefix(u, c);
    RawSplitAfterSpaces(u, c, SkipSpaces(u, 0));
  }

  lemma RawSplitAfterSpaces(u: string, c: nat, s: nat)
    requires s <= c < |u|
    requires FirstComma(u[s..]) == Some(c - s)
    ensures RawSplit(u[s..]) == [u[s..c]] + RawSplit(u[c + 1..])
  {
    var v := u[s..];
    var d := c - s;
    RawSplitAtComma(v, d);
    assert v[..d] == u[s..c];
    assert v[d + 1..] == u[c + 1..];
  }

  /** Cutting at the first comma. */
  lemma RawSplitAtComma(v: string, d: nat)
    requires FirstComma(v) == Some(d)
    ensures RawSplit(v) == [v[..d]] + RawSplit(v[d + 1..])
  {
  }

  /** The first comma is not among the leading spaces, and stays first once they are dropped. */
  lemma FirstCommaAfterSpaces(u: string, c: nat)
    requires FirstComma(u) == Some(c)
    ensures SkipSpaces(u, 0) <= c
    ensures FirstComma(u[SkipSpaces(u, 0)..]) == Some(c - SkipSpaces(u, 0))
  {
    var s := SkipSpaces(u, 0);
    assert !IsSpace(u[c]);
    var v := u[s..];
    assert v[c - s] == ',';
    assert ',' !in v[..c - s] by {
      forall k | 0 <= k < c - s ensures v[k] != ',' { assert u[..c][s + k] == u[s + k]; }
    }
    FirstCommaUnique(v, c - s);
  }

  /** The leading spaces of `u` are those of its first segment. */
  lemma TrimStartOfPrefix(u: string, c: nat)
    requires FirstComma(u) == Some(c)
    requires SkipSpaces(u, 0) <= c
    ensures TrimStart(u[..c]) == u[SkipSpaces(u, 0)..c]
  {
    var s := SkipSpaces(u, 0);
    forall k | 0 <= k < s ensures IsSpace(u[..c][k]) { assert u[..c][k] == u[k]; }
    if s < c { assert u[..c][s] == u[s]; }
    SkipSpacesUnique(u[..c], 0, s);
  }

  /** Trimming a list of at least two segments, split into its head and the rest. */
  lemma TrimAtCommasCons(a: string, rest: seq<string>)
    requires |rest| >= 1
    ensures TrimAtCommas([a] + rest) == [TrimEnd(a)] + TrimAtCommas([TrimStart(rest[0])] + rest[1..])
  {
    var parts := [a] + rest;
    var rest' := [TrimStart(rest[0])] + rest[1..];
    var lhs := TrimAtCommas(parts);
    var rhs := [TrimEnd(a)] + TrimAtCommas(rest');
    forall i | 0 < i < |lhs| ensures lhs[i] == rhs[i] {
      assert lhs[i] == TrimPart(parts, i);
      assert rhs[i] == TrimPart(rest', i - 1);
      assert parts[i] == rest[i - 1];
      if i > 1 { assert rest'[i - 1] == rest[i - 1]; }
    }
    assert lhs[0] == rhs[0];
  }

  /** The regular-expression split and the reference description agree on every string. */
  lemma {:induction false} PregSplitIsReference(t: string)
    decreases |t|
    ensures PregSplit(t) == SplitReference(t)
  {
    match FirstComma(t)
    case None =>
      PregSplitNoComma(t);
    case Some(c) =>
      var u := t[c + 1..];
      var v := TrimStart(u);
      var head := TrimEnd(t[..c]);
      FindMatchAtFirstComma(t, c);
      TrimStartAfter(t, c);
      TrimEndPrefix(t[..c]);
      assert t[..|head|] == head;
      assert PregSplit(t) == (if head == "" then [] else [head]) + PregSplit(v);
      PregSplitIsReference(v);
      RawSplitTrimStart(u);
      assert RawSplit(t) == [t[..c]] + RawSplit(u);
      TrimAtCommasCons(t[..c], RawSplit(u));
      var trimmed := TrimAtCommas(RawSplit(t));
      assert trimmed == [head] + TrimAtCommas(RawSplit(v));
      assert trimmed[1..] == TrimAtCommas(RawSplit(v));
  }

  /** Without a comma there is no match, and the one segment is left untouched. */
  lemma PregSplitNoComma(t: string)
    requires FirstComma(t) == None
    ensures PregSplit(t) == SplitReference(t)
  {
    assert RawSplit(t) == [t];
    assert TrimAtCommas([t]) == [t];
    assert DropEmpty([t]) == if t == "" then [] else [t];
  }

  /** Trimming the end of a string leaves a prefix of it. */
  lemma TrimEndPrefix(x: string)
    ensures TrimEnd(x) == x[..|TrimEnd(x)|]
  {
  }

  // ---------------------------------------------------------------------------
  // Examples
  // ---------------------------------------------------------------------------

  /** Spaces around commas go, empty segments go, order stays. */
  lemma SplitExample()
    ensures PregSplit("a, b ,, c") == ["a", "b", "c"]
  {
    SplitExampleFirst();
    SplitExampleSecond();
    SplitExampleRest();
  }

  lemma SplitExampleFirst()
    ensures PregSplit("a, b ,, c") == ["a"] + PregSplit("b ,, c")
  {
    var t := "a, b ,, c";
    assert SkipSpaces(t, 0) == 0;
    assert SkipSpaces(t, 2) == 3;
    assert FindMatch(t, 1) == Some((1, 3));
    assert FindMatch(t, 0) == Some((1, 3));
    assert t[..1] == "a" && t[3..] == "b ,, c";
  }

  lemma SplitExampleSecond()
    ensures PregSplit("b ,, c") == ["b"] + PregSplit(", c")
  {
    var u := "b ,, c";
    assert SkipSpaces(u, 0) == 0;
    assert SkipSpaces(u, 1) == 2;
    assert SkipSpaces(u, 3) == 3;
    assert FindMatch(u, 1) == Some((1, 3));
    assert FindMatch(u, 0) == Some((1, 3));
    assert u[..1] == "b" && u[3..] == ", c";
  }

  lemma SplitExampleRest()
    ensures PregSplit(", c") == ["c"]
  {
    var v := ", c";
    assert SkipSpaces(v, 1) == 2;
    assert FindMatch(v, 0) == Some((0, 2));
    assert v[2..] == "c";
    assert SkipSpaces("c", 0) == 0;
    assert FindMatch("c", 1) == None;
    assert FindMatch("c", 0) == None;
  }

  /** Whitespace at the two ends of the whole string is not next to a comma, so it stays. */
  lemma OuterWhitespaceKept()
    ensures PregSplit(" a , b ") == [" a", "b "]
  {
    var t := " a , b ";
    assert SkipSpaces(t, 0) == 1;
    assert SkipSpaces(t, 1) == 1;
    assert SkipSpaces(t, 2) == 3;
    assert SkipSpaces(t, 4) == 5;
    assert FindMatch(t, 2) == Some((2, 5));
    assert FindMatch(t, 1) == Some((2, 5));
    assert FindMatch(t, 0) == Some((2, 5));
    assert t[..2] == " a" && t[5..] == "b ";
    var u := "b ";
    assert SkipSpaces(u, 0) == 0;
    assert SkipSpaces(u, 1) == 2;
    assert FindMatch(u, 2) == None;
    assert FindMatch(u, 1) == None;
    assert FindMatch(u, 0) == None;
  }
}
