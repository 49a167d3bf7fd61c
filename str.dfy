/**
 * JavaScript string primitives the decklist scripts are built from, on
 * `seq<char>`: the character classes of JavaScript regular expressions,
 * ASCII case mapping, `String.prototype.replace` / `replaceAll` with a
 * literal pattern, the anchored forms `/^p/`, `/p$/`, `/^p$/`, the shape
 * `/A.*B/`, `trim` and `split`.
 */
module Str {

  datatype Option<T> = None | Some(value: T)

  /** The outcome of a step that throws in the scripts (a `TypeError` on `null`, say). */
  datatype Result<T> = Success(value: T) | Failure

  /** JavaScript truthiness of a possibly-missing string: `null`, `undefined` and `""` are falsy. */
  predicate Truthy(s: Option<string>)
  {
    s.Some? && s.value != ""
  }

  // ----- character classes -----------------------------------------------

  /** The characters `.` does not match: LF, CR, LS and PS. */
  predicate IsLineTerminator(c: char)
  {
    c == '\n' || c == '\r' || c == '\U{2028}' || c == '\U{2029}'
  }

  /** JavaScript `\s`, which is also the set `trim` strips. */
  predicate IsSpace(c: char)
  {
    c == '\t' || c == '\U{000B}' || c == '\U{000C}' || c == ' ' || c == '\U{00A0}'
    || c == '\U{1680}' || ('\U{2000}' <= c <= '\U{200A}') || c == '\U{202F}'
    || c == '\U{205F}' || c == '\U{3000}' || c == '\U{FEFF}' || IsLineTerminator(c)
  }

  predicate IsDigit(c: char) { '0' <= c <= '9' }

  predicate IsAsciiUpper(c: char) { 'A' <= c <= 'Z' }

  predicate IsAsciiLower(c: char) { 'a' <= c <= 'z' }

  /** JavaScript `\w`. */
  predicate IsWordChar(c: char)
  {
    IsAsciiLower(c) || IsAsciiUpper(c) || IsDigit(c) || c == '_'
  }

  /** `toLowerCase` on one character; only ASCII letters are mapped. */
  function Lower(c: char): (r: char)
    ensures IsAsciiUpper(c) ==> IsAsciiLower(r)
    ensures !IsAsciiUpper(c) ==> r == c
    ensures !IsAsciiUpper(r)
  {
    if IsAsciiUpper(c) then (c as int + 32) as char else c
  }

  /** `toUpperCase` on one character; only ASCII letters are mapped. */
  function Upper(c: char): (r: char)
    ensures IsAsciiLower(c) ==> IsAsciiUpper(r)
    ensures !IsAsciiLower(c) ==> r == c
    ensures !IsAsciiLower(r)
  {
    if IsAsciiLower(c) then (c as int - 32) as char else c
  }

  lemma LowerUpper(c: char)
    ensures Lower(Upper(c)) == Lower(c)
    ensures Upper(Lower(c)) == Upper(c)
    ensures Lower(Lower(c)) == Lower(c)
    ensures Upper(Upper(c)) == Upper(c)
  {
  }

  function ToLower(s: string): (r: string)
    ensures |r| == |s|
    ensures forall i :: 0 <= i < |s| ==> r[i] == Lower(s[i])
  {
    if s == [] then [] else [Lower(s[0])] + ToLower(s[1..])
  }

  function ToUpper(s: string): (r: string)
    ensures |r| == |s|
    ensures forall i :: 0 <= i < |s| ==> r[i] == Upper(s[i])
  {
    if s == [] then [] else [Upper(s[0])] + ToUpper(s[1..])
  }

  lemma ToLowerSlice(s: string, i: nat, j: nat)
    requires i <= j <= |s|
    ensures ToLower(s)[i..j] == ToLower(s[i..j])
  {
    var x, y := ToLower(s)[i..j], ToLower(s[i..j]);
    forall k | 0 <= k < j - i ensures x[k] == y[k] {
      ToLowerSliceAt(s, i, j, k);
    }
    assert |x| == |y|;
  }

  lemma ToLowerSliceAt(s: string, i: nat, j: nat, k: nat)
    requires i <= j <= |s| && k < j - i
    ensures ToLower(s)[i..j][k] == ToLower(s[i..j])[k]
  {
    assert s[i..j][k] == s[i + k];
  }

  lemma ToLowerConcat(a: string, b: string)
    ensures ToLower(a + b) == ToLower(a) + ToLower(b)
  {
    var x, y := ToLower(a + b), ToLower(a) + ToLower(b);
    assert |x| == |y|;
    assert forall k :: 0 <= k < |x| ==> x[k] == Lower((a + b)[k]) == y[k];
  }

  lemma ToLowerIdempotent(s: string)
    ensures ToLower(ToLower(s)) == ToLower(s)
  {
    var x, y := ToLower(ToLower(s)), ToLower(s);
    assert |x| == |y|;
    assert forall k :: 0 <= k < |x| ==> x[k] == Lower(Lower(s[k])) == y[k];
  }

  // ----- occurrences -------------------------------------------------------

  /** `p` occurs in `s` at index `i`. */
  predicate OccursAt(s: string, p: string, i: int)
  {
    0 <= i && i + |p| <= |s| && s[i..i + |p|] == p
  }

  predicate StartsWith(s: string, p: string)
  {
    |p| <= |s| && (p == [] || (s[0] == p[0] && StartsWith(s[1..], p[1..])))
  }

  lemma {:induction false} StartsWithIff(s: string, p: string)
    ensures StartsWith(s, p) <==> OccursAt(s, p, 0)
  {
    if p != [] && |p| <= |s| {
      StartsWithIff(s[1..], p[1..]);
      assert s[..|p|] == [s[0]] + s[1..][..|p| - 1];
      assert p == [p[0]] + p[1..];
    }
  }

  predicate EndsWith(s: string, p: string)
  {
    |p| <= |s| && StartsWith(s[|s| - |p|..], p)
  }

  lemma EndsWithIff(s: string, p: string)
    ensures EndsWith(s, p) <==> OccursAt(s, p, |s| - |p|)
  {
    if |p| <= |s| {
      StartsWithIff(s[|s| - |p|..], p);
      assert s[|s| - |p|..][..|p|] == s[|s| - |p|..|s|];
    }
  }

  /** `indexOf`: the first index at which `p` occurs in `s`, or -1. */
  function IndexOf(s: string, p: string): (r: int)
    ensures -1 <= r <= |s|
    ensures r >= 0 ==> r + |p| <= |s|
  {
    if StartsWith(s, p) then 0
    else if s == [] then -1
    else var t := IndexOf(s[1..], p); if t < 0 then -1 else t + 1
  }

  lemma {:induction false} IndexOfSpec(s: string, p: string)
    ensures IndexOf(s, p) >= 0 ==> OccursAt(s, p, IndexOf(s, p))
    ensures forall j :: 0 <= j < IndexOf(s, p) ==> !OccursAt(s, p, j)
    ensures IndexOf(s, p) < 0 ==> forall j :: !OccursAt(s, p, j)
  {
    StartsWithIff(s, p);
    if !StartsWith(s, p) && s != [] {
      IndexOfSpec(s[1..], p);
      forall j | 1 <= j
        ensures OccursAt(s, p, j) <==> OccursAt(s[1..], p, j - 1)
      {
        OccursAtTail(s, p, j);
      }
    }
  }

  /** An occurrence past the first character is one in the tail. */
  lemma OccursAtTail(s: string, p: string, j: int)
    requires s != [] && 1 <= j
    ensures OccursAt(s, p, j) <==> OccursAt(s[1..], p, j - 1)
  {
    if j + |p| <= |s| {
      var a, b := s[j..j + |p|], s[1..][j - 1..j - 1 + |p|];
      assert |a| == |b|;
      assert forall k :: 0 <= k < |a| ==> a[k] == s[j + k] == b[k];
      assert a == b;
    }
  }

  /** `p` occurs in `s` at some index. */
  predicate Contains(s: string, p: string)
  {
    IndexOf(s, p) >= 0
  }

  lemma ContainsIff(s: string, p: string, i: int)
    requires OccursAt(s, p, i)
    ensures Contains(s, p)
  {
    IndexOfSpec(s, p);
  }

  lemma CharContains(s: string, c: char)
    ensures Contains(s, [c]) <==> c in s
  {
    IndexOfSpec(s, [c]);
    forall i | 0 <= i < |s| && s[i] == c ensures OccursAt(s, [c], i) {
      assert s[i..i + 1] == [c];
    }
    forall i | OccursAt(s, [c], i) ensures s[i] == c && s[i] in s {
      assert s[i..i + 1][0] == s[i];
    }
  }

  /** Case-insensitive (`/i`) occurrence, which compares ASCII-lowered text. */
  function IndexOfCI(s: string, p: string): (r: int)
    ensures -1 <= r <= |s|
    ensures r >= 0 ==> r + |p| <= |s|
  {
    IndexOf(ToLower(s), ToLower(p))
  }

  predicate ContainsCI(s: string, p: string)
  {
    IndexOfCI(s, p) >= 0
  }

  // ----- replacement with a literal pattern --------------------------------

  /** `s.replace(p, r)` with a string (or regex-literal) pattern: the first match only. */
  function ReplaceFirst(s: string, p: string, r: string): string
  {
    var i := IndexOf(s, p);
    if i < 0 then s else s[..i] + r + s[i + |p|..]
  }

  /** `s.replace(/p/i, r)`. */
  function ReplaceFirstCI(s: string, p: string, r: string): string
  {
    var i := IndexOfCI(s, p);
    if i < 0 then s else s[..i] + r + s[i + |p|..]
  }

  /** A chain `s.replace(p1, r1).replace(p2, r2)...` over a table of (pattern, replacement) pairs. */
  function ReplaceChain(s: string, rules: seq<(string, string)>): string
    decreases |rules|
  {
    if rules == [] then s
    else ReplaceChain(ReplaceFirst(s, rules[0].0, rules[0].1), rules[1..])
  }

  /** A chain leaves alone a string in which none of its patterns occurs. */
  lemma {:induction false} ReplaceChainAbsent(s: string, rules: seq<(string, string)>)
    requires forall k :: 0 <= k < |rules| ==> !Contains(s, rules[k].0)
    ensures ReplaceChain(s, rules) == s
    decreases |rules|
  {
    if rules != [] {
      ReplaceChainAbsent(s, rules[1..]);
    }
  }

  /** `s.replaceAll(p, r)`: the non-overlapping matches found left to right. */
  function ReplaceAll(s: string, p: string, r: string): string
    decreases |s|
  {
    if p == [] then (if s == [] then r else r + [s[0]] + ReplaceAll(s[1..], p, r))
    else
      var i := IndexOf(s, p);
      if i < 0 then s else s[..i] + r + ReplaceAll(s[i + |p|..], p, r)
  }

  /** A global replacement cuts at the first occurrence and carries on after it. */
  lemma ReplaceAllAt(s: string, p: string, r: string)
    requires p != [] && IndexOf(s, p) >= 0
    ensures ReplaceAll(s, p, r) == s[..IndexOf(s, p)] + r + ReplaceAll(s[IndexOf(s, p) + |p|..], p, r)
  {
  }

  /** `s.replaceAll(/p/gi, r)`. */
  function ReplaceAllCI(s: string, p: string, r: string): string
    decreases |s|
  {
    if p == [] then (if s == [] then r else r + [s[0]] + ReplaceAllCI(s[1..], p, r))
    else
      var i := IndexOfCI(s, p);
      if i < 0 then s else s[..i] + r + ReplaceAllCI(s[i + |p|..], p, r)
  }

  /** The case-insensitive global replacement cuts at the first match and carries on after it. */
  lemma ReplaceAllCIAt(s: string, p: string, r: string)
    requires p != [] && IndexOfCI(s, p) >= 0
    ensures ReplaceAllCI(s, p, r) == s[..IndexOfCI(s, p)] + r + ReplaceAllCI(s[IndexOfCI(s, p) + |p|..], p, r)
  {
  }

  /** `s.replace(/^p/, r)`. */
  function ReplaceStart(s: string, p: string, r: string): string
  {
    if StartsWith(s, p) then r + s[|p|..] else s
  }

  /** `s.replace(/p$/, r)`, and `/p$/g`, which can match only once. */
  function ReplaceEnd(s: string, p: string, r: string): string
  {
    if EndsWith(s, p) then s[..|s| - |p|] + r else s
  }

  /** `s.replace(/p$/i, r)`. */
  function ReplaceEndCI(s: string, p: string, r: string): string
  {
    if EndsWith(ToLower(s), ToLower(p)) then s[..|s| - |p|] + r else s
  }

  /** `s.replace(/^p$/, r)`. */
  function ReplaceWhole(s: string, p: string, r: string): string
  {
    if s == p then r else s
  }

  /**
   * `s.replaceAll(/(a|b|...)/g, r)` with literal alternatives: at each index
   * the alternatives are tried in order, and scanning resumes after a match
   * (one character further on after an empty match).
   */
  function ReplaceAllAlt(s: string, alts: seq<string>, r: string): string
    decreases |s|
  {
    match FirstAltAt(s, alts, 0, |s|, false)
    case Some(e) =>
      if e == 0 then (if s == [] then r else r + [s[0]] + ReplaceAllAlt(s[1..], alts, r))
      else r + ReplaceAllAlt(s[e..], alts, r)
    case None => if s == [] then [] else [s[0]] + ReplaceAllAlt(s[1..], alts, r)
  }

  /** `s.replace(/(a|b|...)/, r)` (with the `i` flag when `ci`): the leftmost match only. */
  function ReplaceFirstAlt(s: string, alts: seq<string>, r: string, ci: bool): string
  {
    match FirstAltFrom(s, alts, 0, ci)
    case Some((i, e)) => s[..i] + r + s[e..]
    case None => s
  }

  // ----- the regex shape /A.*B/ ---------------------------------------------

  /** The index of the first line terminator at or after `i`, or `|s|`. */
  function SegEnd(s: string, i: nat): (e: nat)
    requires i <= |s|
    ensures i <= e <= |s|
    ensures forall k :: i <= k < e ==> !IsLineTerminator(s[k])
    ensures e < |s| ==> IsLineTerminator(s[e])
    decreases |s| - i
  {
    if i == |s| || IsLineTerminator(s[i]) then i else SegEnd(s, i + 1)
  }

  predicate OccursAtCase(s: string, p: string, i: int, ci: bool)
  {
    if ci then OccursAt(ToLower(s), ToLower(p), i) else OccursAt(s, p, i)
  }

  /**
   * The end of the first of `alts` that occurs at `k` and ends by `hi`;
   * alternatives are tried in the order a regex alternation tries them.
   */
  function FirstAltAt(s: string, alts: seq<string>, k: nat, hi: nat, ci: bool): (e: Option<nat>)
    requires hi <= |s|
    ensures e.Some? ==> k <= e.value <= hi
    ensures e.Some? ==> exists a :: a in alts && OccursAtCase(s, a, k, ci) && e.value == k + |a| <= hi
    ensures e.None? ==> forall a :: a in alts && k + |a| <= hi ==> !OccursAtCase(s, a, k, ci)
    decreases |alts|
  {
    if alts == [] then None
    else if k + |alts[0]| <= hi && OccursAtCase(s, alts[0], k, ci) then Some(k + |alts[0]|)
    else FirstAltAt(s, alts[1..], k, hi, ci)
  }

  /** The leftmost match `(start, end)` of `/(a1|a2|...)/` at or after `p`. */
  function FirstAltFrom(s: string, alts: seq<string>, p: nat, ci: bool): (m: Option<(nat, nat)>)
    requires p <= |s|
    ensures m.Some? ==> p <= m.value.0 <= m.value.1 <= |s|
    ensures m.Some? ==> FirstAltAt(s, alts, m.value.0, |s|, ci) == Some(m.value.1)
    ensures m.Some? ==> forall q :: p <= q < m.value.0 ==> FirstAltAt(s, alts, q, |s|, ci).None?
    ensures m.None? ==> forall q :: p <= q <= |s| ==> FirstAltAt(s, alts, q, |s|, ci).None?
    decreases |s| - p
  {
    var here := FirstAltAt(s, alts, p, |s|, ci);
    if here.Some? then Some((p, here.value))
    else if p == |s| then None
    else
      var m := FirstAltFrom(s, alts, p + 1, ci);
      assert m.Some? ==> forall q :: p <= q < m.value.0 ==> FirstAltAt(s, alts, q, |s|, ci).None? by {
        if m.Some? {
          assert forall q :: p + 1 <= q < m.value.0 ==> FirstAltAt(s, alts, q, |s|, ci).None?;
        }
      }
      m
  }

  /**
   * Greedy `.*B` starting at `lo`: the largest `k` in `[lo, hi]` at which one
   * of `bs` occurs, returning where that occurrence ends.
   */
  function LastFit(s: string, bs: seq<string>, lo: nat, k: nat, hi: nat, ci: bool): (e: Option<nat>)
    requires lo <= k <= hi <= |s|
    ensures e.Some? ==> lo <= e.value <= hi
    decreases k
  {
    var here := FirstAltAt(s, bs, k, hi, ci);
    if here.Some? then here
    else if k == lo then None
    else LastFit(s, bs, lo, k - 1, hi, ci)
  }

  /** Where a match of `/(A1|A2|...).*(B1|B2|...)/` that begins at `p` ends. */
  function DotStarAt(s: string, as_: seq<string>, bs: seq<string>, p: nat, ci: bool): (e: Option<nat>)
    requires p <= |s|
    ensures e.Some? ==> p <= e.value <= |s|
    decreases |as_|
  {
    if as_ == [] then None
    else
      var a := as_[0];
      if OccursAtCase(s, a, p, ci) then
        var hi := SegEnd(s, p + |a|);
        var e := LastFit(s, bs, p + |a|, hi, hi, ci);
        if e.Some? then e else DotStarAt(s, as_[1..], bs, p, ci)
      else DotStarAt(s, as_[1..], bs, p, ci)
  }

  /** The leftmost match `(start, end)` of `/(A...).*(B...)/` at or after `p`. */
  function DotStarFrom(s: string, as_: seq<string>, bs: seq<string>, p: nat, ci: bool): (m: Option<(nat, nat)>)
    requires p <= |s|
    ensures m.Some? ==> p <= m.value.0 <= m.value.1 <= |s|
    decreases |s| - p
  {
    match DotStarAt(s, as_, bs, p, ci)
    case Some(e) => Some((p, e))
    case None => if p == |s| then None else DotStarFrom(s, as_, bs, p + 1, ci)
  }

  /** Greedy `.*B` fails only when no `B` fits anywhere in `[lo, k]`. */
  lemma {:induction false} LastFitFinds(s: string, bs: seq<string>, lo: nat, k: nat, hi: nat, ci: bool, j: nat, b: string)
    requires lo <= j <= k <= hi <= |s|
    requires b in bs && j + |b| <= hi && OccursAtCase(s, b, j, ci)
    ensures LastFit(s, bs, lo, k, hi, ci).Some?
    decreases k
  {
    if FirstAltAt(s, bs, k, hi, ci).None? && k > j {
      LastFitFinds(s, bs, lo, k - 1, hi, ci, j, b);
    }
  }

  /** `s.replace(/(A...).*(B...)/, r)` (with the `i` flag when `ci`). */
  function ReplaceDotStar(s: string, as_: seq<string>, bs: seq<string>, r: string, ci: bool): string
  {
    match DotStarFrom(s, as_, bs, 0, ci)
    case Some((i, e)) => s[..i] + r + s[e..]
    case None => s
  }

  /** `s.replaceAll(/(A...).*(B...)/g, r)`. */
  function ReplaceAllDotStar(s: string, as_: seq<string>, bs: seq<string>, r: string, ci: bool): string
    decreases |s|
  {
    match DotStarFrom(s, as_, bs, 0, ci)
    case Some((i, e)) =>
      if e == 0 then
        if s == [] then r else r + [s[0]] + ReplaceAllDotStar(s[1..], as_, bs, r, ci)
      else s[..i] + r + ReplaceAllDotStar(s[e..], as_, bs, r, ci)
    case None => s
  }

  /** A match of `/(A...).*(B...)/` can only begin where one of the `A`s occurs. */
  lemma {:induction false} NoStartDotStarAt(s: string, as_: seq<string>, bs: seq<string>, p: nat, ci: bool)
    requires p <= |s|
    requires forall k :: 0 <= k < |as_| ==> !OccursAtCase(s, as_[k], p, ci)
    ensures DotStarAt(s, as_, bs, p, ci).None?
    decreases |as_|
  {
    if as_ != [] {
      NoStartDotStarAt(s, as_[1..], bs, p, ci);
    }
  }

  /** `DotStarFrom` finds the leftmost index at which a match begins. */
  lemma {:induction false} DotStarFromLeftmost(s: string, as_: seq<string>, bs: seq<string>, p: nat, ci: bool)
    requires p <= |s|
    ensures match DotStarFrom(s, as_, bs, p, ci)
      case Some((i, e)) =>
        DotStarAt(s, as_, bs, i, ci) == Some(e)
        && forall q :: p <= q < i ==> DotStarAt(s, as_, bs, q, ci).None?
      case None => forall q :: p <= q <= |s| ==> DotStarAt(s, as_, bs, q, ci).None?
    decreases |s| - p
  {
    if DotStarAt(s, as_, bs, p, ci).None? && p < |s| {
      DotStarFromLeftmost(s, as_, bs, p + 1, ci);
    }
  }

  /** `replaceAll(/A.*()/g, "")` cuts its first match, from `A` to the end of that line, and carries on after it. */
  lemma DotStarLineCut(s: string, a: string, i: nat, e: nat)
    requires a != [] && DotStarFrom(s, [a], [""], 0, false) == Some((i, e))
    ensures i + |a| <= e <= |s| && (e < |s| ==> IsLineTerminator(s[e]))
    ensures ReplaceAllDotStar(s, [a], [""], "", false) == s[..i] + ReplaceAllDotStar(s[e..], [a], [""], "", false)
  {
    DotStarFromLeftmost(s, [a], [""], 0, false);
    DotStarToLineEnd(s, a, i);
    assert s[..i] + "" == s[..i];
  }

  /** `/A.*()/` with one literal `A`: a match runs from an occurrence of `A` to the end of its line. */
  lemma DotStarToLineEnd(s: string, a: string, p: nat)
    requires p <= |s|
    ensures DotStarAt(s, [a], [""], p, false)
      == (if OccursAt(s, a, p) then Some(SegEnd(s, p + |a|)) else None)
  {
    if OccursAt(s, a, p) {
      var hi := SegEnd(s, p + |a|);
      assert OccursAt(s, [], hi);
      assert FirstAltAt(s, [""], hi, hi, false) == Some(hi);
    }
  }

  // ----- does /P0.*P1.*...Pn/ match? ------------------------------------------------

  /** Some alternative of `alts` occurs ending exactly at `e`, starting no earlier than `p`. */
  predicate AnyEndsAt(s: string, alts: seq<string>, p: nat, e: nat, ci: bool)
  {
    exists k :: 0 <= k < |alts| && p + |alts[k]| <= e && OccursAtCase(s, alts[k], e - |alts[k]|, ci)
  }

  /** The smallest end in `[e, hi]` of an occurrence of an alternative starting at or after `p`. */
  function MinEnd(s: string, alts: seq<string>, p: nat, e: nat, hi: nat, ci: bool): (r: Option<nat>)
    requires p <= e
    ensures r.Some? ==> e <= r.value <= hi && AnyEndsAt(s, alts, p, r.value, ci)
    ensures r.Some? ==> forall x :: e <= x < r.value ==> !AnyEndsAt(s, alts, p, x, ci)
    ensures r.None? ==> forall x :: e <= x <= hi ==> !AnyEndsAt(s, alts, p, x, ci)
    decreases hi - e
  {
    if e > hi then None
    else if AnyEndsAt(s, alts, p, e, ci) then Some(e)
    else MinEnd(s, alts, p, e + 1, hi, ci)
  }

  /**
   * The parts occur in order inside `[p, hi]`: each part is matched at its
   * earliest possible end, which is the best choice for the parts after it.
   */
  predicate InOrderWithin(s: string, parts: seq<seq<string>>, p: nat, hi: nat, ci: bool)
    decreases |parts|
  {
    parts == [] ||
      match MinEnd(s, parts[0], p, p, hi, ci)
      case None => false
      case Some(e) => InOrderWithin(s, parts[1..], e, hi, ci)
  }

  /** `/P0.*P1.*.../` (each part an alternation of literals) matches somewhere in `s[p..]`. */
  predicate MatchesInOrderFrom(s: string, parts: seq<seq<string>>, p: nat, ci: bool)
    requires p <= |s|
    decreases |s| - p
  {
    var hi := SegEnd(s, p);
    InOrderWithin(s, parts, p, hi, ci) || (hi < |s| && MatchesInOrderFrom(s, parts, hi + 1, ci))
  }

  /** `s.match(/P0.*P1.*.../)` is not `null` (with the `i` flag when `ci`). */
  predicate MatchesInOrder(s: string, parts: seq<seq<string>>, ci: bool)
  {
    MatchesInOrderFrom(s, parts, 0, ci)
  }

  // ----- character classes as patterns ------------------------------------------

  /** `s.replaceAll(/[...]/g, "")` for the characters `keep` rejects: the kept characters, in order. */
  function KeepChars(s: string, keep: char -> bool): (r: string)
    ensures |r| <= |s|
    ensures forall k :: 0 <= k < |r| ==> keep(r[k]) && r[k] in s
    ensures (forall k :: 0 <= k < |s| ==> keep(s[k])) ==> r == s
  {
    if s == [] then []
    else (if keep(s[0]) then [s[0]] else []) + KeepChars(s[1..], keep)
  }

  /** `s.replaceAll(/[c1c2...]/g, "")`. */
  function RemoveChars(s: string, cs: set<char>): (r: string)
    ensures forall c :: c in cs ==> c !in r
    ensures forall c :: c !in s ==> c !in r
    ensures (forall c :: c in cs ==> c !in s) ==> r == s
  {
    var r := KeepChars(s, c => c !in cs);
    assert forall k :: 0 <= k < |r| ==> r[k] !in cs && r[k] in s;
    assert (forall c :: c in cs ==> c !in s) ==> forall k :: 0 <= k < |s| ==> s[k] !in cs by {
      forall k | 0 <= k < |s| ensures s[k] in s { }
    }
    r
  }

  /** `s.replaceAll(/[c1c2...]/g, c)` with a one-character replacement. */
  function MapChars(s: string, cs: set<char>, c: char): (r: string)
    ensures |r| == |s|
    ensures forall k :: 0 <= k < |s| ==> r[k] == (if s[k] in cs then c else s[k])
  {
    if s == [] then [] else [if s[0] in cs then c else s[0]] + MapChars(s[1..], cs, c)
  }

  /** A character of the mapped set is mapped away. */
  lemma MapCharsRemoves(s: string, cs: set<char>, c: char, ch: char)
    requires ch in cs && ch != c
    ensures ch !in MapChars(s, cs, c)
  {
    var r := MapChars(s, cs, c);
    assert forall k :: 0 <= k < |r| ==> r[k] != ch;
  }

  /** Mapping cannot bring in a character other than its target. */
  lemma MapCharsKeepsOut(s: string, cs: set<char>, c: char, ch: char)
    requires ch !in s && ch != c
    ensures ch !in MapChars(s, cs, c)
  {
    var r := MapChars(s, cs, c);
    assert forall k :: 0 <= k < |r| ==> r[k] != ch;
  }

  // ----- the regex shape /a\s+b/ ------------------------------------------------

  /** The end of the run of `\s` characters that starts at `i`. */
  function SpaceRunEnd(s: string, i: nat): (e: nat)
    requires i <= |s|
    ensures i <= e <= |s|
    ensures forall k :: i <= k < e ==> IsSpace(s[k])
    ensures e < |s| ==> !IsSpace(s[e])
    decreases |s| - i
  {
    if i < |s| && IsSpace(s[i]) then SpaceRunEnd(s, i + 1) else i
  }

  /**
   * A match of `/a\s+b/` at `p`, for a `b` that does not begin with `\s`:
   * `\s+` takes the whole run of `\s` after `a`, and `b` must follow it.
   */
  function SpacedAt(s: string, a: string, b: string, p: nat, ci: bool): (e: Option<nat>)
    requires p <= |s|
    ensures e.Some? ==> p < e.value <= |s|
  {
    if OccursAtCase(s, a, p, ci) then
      var m := p + |a|;
      var w := SpaceRunEnd(s, m);
      if w > m && OccursAtCase(s, b, w, ci) then Some(w + |b|) else None
    else None
  }

  /** The leftmost match `(start, end)` of `/a\s+b/` at or after `p`. */
  function SpacedFrom(s: string, a: string, b: string, p: nat, ci: bool): (m: Option<(nat, nat)>)
    requires p <= |s|
    ensures m.Some? ==> p <= m.value.0 < m.value.1 <= |s|
    decreases |s| - p
  {
    match SpacedAt(s, a, b, p, ci)
    case Some(e) => Some((p, e))
    case None => if p == |s| then None else SpacedFrom(s, a, b, p + 1, ci)
  }

  /** `s.replace(/a\s+b/, r)` (with the `i` flag when `ci`). */
  function ReplaceSpaced(s: string, a: string, b: string, r: string, ci: bool): string
  {
    match SpacedFrom(s, a, b, 0, ci)
    case Some((i, e)) => s[..i] + r + s[e..]
    case None => s
  }

  // ----- trim ----------------------------------------------------------------

  function TrimStart(s: string): (r: string)
    ensures |r| <= |s| && r == s[|s| - |r|..]
    ensures r == [] || !IsSpace(r[0])
    ensures forall k :: 0 <= k < |s| - |r| ==> IsSpace(s[k])
  {
    if s != [] && IsSpace(s[0]) then
      var t := TrimStart(s[1..]);
      assert t == s[|s| - |t|..] by { assert s[1..][|s| - 1 - |t|..] == s[|s| - |t|..]; }
      t
    else s
  }

  function TrimEnd(s: string): (r: string)
    ensures |r| <= |s| && r == s[..|r|]
    ensures r == [] || !IsSpace(r[|r| - 1])
    ensures forall k :: |r| <= k < |s| ==> IsSpace(s[k])
  {
    if s != [] && IsSpace(s[|s| - 1]) then TrimEnd(s[..|s| - 1]) else s
  }

  /** `trim`: no leading or trailing `\s`. */
  function Trim(s: string): (r: string)
    ensures r == [] || (!IsSpace(r[0]) && !IsSpace(r[|r| - 1]))
    ensures |r| <= |s|
  {
    TrimEnd(TrimStart(s))
  }

  lemma TrimNoSpaceEnds(s: string)
    requires s == [] || (!IsSpace(s[0]) && !IsSpace(s[|s| - 1]))
    ensures Trim(s) == s
  {
  }

  lemma TrimIdempotent(s: string)
    ensures Trim(Trim(s)) == Trim(s)
  {
    TrimNoSpaceEnds(Trim(s));
  }

  /** Every character of `Trim(s)` is a character of `s`. */
  lemma TrimChars(s: string, c: char)
    requires c !in s
    ensures c !in Trim(s)
  {
    var t := TrimStart(s);
    SliceChars(s, |s| - |t|, |s|, c);
    SliceChars(t, 0, |TrimEnd(t)|, c);
  }

  // ----- split and join --------------------------------------------------------

  /** `s.split(sep)` for a one-character separator. */
  function Split(s: string, sep: char): (r: seq<string>)
    ensures |r| >= 1
    ensures forall k :: 0 <= k < |r| ==> sep !in r[k]
    decreases |s|
  {
    if sep !in s then [s]
    else
      var i := IndexOf(s, [sep]);
      assert i >= 0 by { CharContains(s, sep); }
      IndexOfSpec(s, [sep]);
      assert sep !in s[..i] by {
        forall j | 0 <= j < i ensures s[j] != sep { assert !OccursAt(s, [sep], j); }
      }
      [s[..i]] + Split(s[i + 1..], sep)
  }

  /** Splitting at the first separator: the text before it, then the split of the rest. */
  lemma SplitFirst(a: string, sep: char, rest: string)
    requires sep !in a
    ensures Split(a + [sep] + rest, sep) == [a] + Split(rest, sep)
  {
    var s := a + [sep] + rest;
    assert s[|a|] == sep;
    CharContains(s, sep);
    IndexOfSpec(s, [sep]);
    var i := IndexOf(s, [sep]);
    assert s[|a|..|a| + 1] == [sep];
    assert OccursAt(s, [sep], |a|);
    assert i == |a|;
    assert s[..i] == a && s[i + 1..] == rest;
  }

  /** `lines.join(sep)`. */
  function Join(lines: seq<string>, sep: string): string
  {
    if lines == [] then []
    else if |lines| == 1 then lines[0]
    else lines[0] + sep + Join(lines[1..], sep)
  }

  /** Joining a line before others puts the separator between it and their join. */
  lemma JoinCons(a: string, rest: seq<string>, sep: string)
    requires rest != []
    ensures Join([a] + rest, sep) == a + sep + Join(rest, sep)
  {
    assert ([a] + rest)[1..] == rest;
  }

  /** A string holding `sep` is the text before its first `sep`, the `sep`, and the rest. */
  lemma FirstSep(s: string, sep: char) returns (i: nat)
    requires sep in s
    ensures i < |s| && sep !in s[..i] && s == s[..i] + [sep] + s[i + 1..]
  {
    CharContains(s, sep);
    IndexOfSpec(s, [sep]);
    i := IndexOf(s, [sep]);
    assert s[i..i + 1] == [sep];
    forall j | 0 <= j < i ensures s[j] != sep { assert !OccursAt(s, [sep], j); }
    assert s == s[..i] + s[i..i + 1] + s[i + 1..];
  }

  lemma {:induction false} JoinSplit(s: string, sep: char)
    ensures Join(Split(s, sep), [sep]) == s
    decreases |s|
  {
    if sep in s {
      var i := FirstSep(s, sep);
      var a, b := s[..i], s[i + 1..];
      SplitFirst(a, sep, b);
      JoinSplit(b, sep);
      JoinCons(a, Split(b, sep), [sep]);
    }
  }

  // ----- what a replacement can put into a string --------------------------------

  lemma SliceChars(s: string, i: nat, j: nat, c: char)
    requires i <= j <= |s| && c !in s
    ensures c !in s[i..j]
  {
    assert forall k :: 0 <= k < j - i ==> s[i..j][k] == s[i + k] && s[i + k] in s;
  }

  lemma ReplaceFirstChars(s: string, p: string, r: string, c: char)
    requires c !in s && c !in r
    ensures c !in ReplaceFirst(s, p, r)
  {
    var i := IndexOf(s, p);
    if i >= 0 { SliceChars(s, 0, i, c); SliceChars(s, i + |p|, |s|, c); }
  }

  lemma ReplaceFirstCIChars(s: string, p: string, r: string, c: char)
    requires c !in s && c !in r
    ensures c !in ReplaceFirstCI(s, p, r)
  {
    var i := IndexOfCI(s, p);
    if i >= 0 { SliceChars(s, 0, i, c); SliceChars(s, i + |p|, |s|, c); }
  }

  lemma ReplaceAllChars(s: string, p: string, r: string, c: char)
    requires c !in s && c !in r
    ensures c !in ReplaceAll(s, p, r)
  {
    if p == [] {
      ReplaceAllEmptyChars(s, r, c);
    } else {
      ReplaceAllPatternChars(s, p, r, c);
    }
  }

  lemma {:induction false} ReplaceAllEmptyChars(s: string, r: string, c: char)
    requires c !in s && c !in r
    ensures c !in ReplaceAll(s, [], r)
    decreases |s|
  {
    if s != [] {
      SliceChars(s, 1, |s|, c);
      ReplaceAllEmptyChars(s[1..], r, c);
      assert s[0] in s;
      NotInConcat(r, [s[0]], c);
      NotInConcat(r + [s[0]], ReplaceAll(s[1..], [], r), c);
    }
  }

  lemma {:induction false} ReplaceAllPatternChars(s: string, p: string, r: string, c: char)
    requires p != [] && c !in s && c !in r
    ensures c !in ReplaceAll(s, p, r)
    decreases |s|
  {
    var i := IndexOf(s, p);
    if i >= 0 {
      TakeDropChars(s, i, i + |p|, c);
      ReplaceAllPatternChars(s[i + |p|..], p, r, c);
      ReplaceAllStepChars(s, p, r, c);
    }
  }

  lemma ReplaceAllStepChars(s: string, p: string, r: string, c: char)
    requires p != [] && IndexOf(s, p) >= 0
    requires c !in s[..IndexOf(s, p)] && c !in r && c !in ReplaceAll(s[IndexOf(s, p) + |p|..], p, r)
    ensures c !in ReplaceAll(s, p, r)
  {
    var i := IndexOf(s, p);
    ReplaceAllAt(s, p, r);
    SpliceChars(s[..i], r, ReplaceAll(s[i + |p|..], p, r), c);
  }

  lemma TakeDropChars(s: string, i: nat, j: nat, c: char)
    requires i <= j <= |s| && c !in s
    ensures c !in s[..i] && c !in s[j..]
  {
    assert forall k :: 0 <= k < i ==> s[..i][k] == s[k] && s[k] in s;
    assert forall k :: 0 <= k < |s| - j ==> s[j..][k] == s[j + k] && s[j + k] in s;
  }

  lemma SpliceChars(a: string, r: string, b: string, c: char)
    requires c !in a && c !in r && c !in b
    ensures c !in a + r + b
  {
  }

  lemma ReplaceAllCIChars(s: string, p: string, r: string, c: char)
    requires c !in s && c !in r
    ensures c !in ReplaceAllCI(s, p, r)
  {
    if p == [] {
      ReplaceAllCIEmptyChars(s, r, c);
    } else {
      ReplaceAllCIPatternChars(s, p, r, c);
    }
  }

  /** `ReplaceAllCIChars` for a non-empty pattern. */
  lemma {:induction false} ReplaceAllCIPatternChars(s: string, p: string, r: string, c: char)
    requires p != [] && c !in s && c !in r
    ensures c !in ReplaceAllCI(s, p, r)
    decreases |s|, 1
  {
    if IndexOfCI(s, p) >= 0 {
      ReplaceAllCIFoundChars(s, p, r, c);
    } else {
      ReplaceAllCINone(s, p, r);
    }
  }

  /** `ReplaceAllCIChars` when the pattern is found. */
  lemma {:induction false} ReplaceAllCIFoundChars(s: string, p: string, r: string, c: char)
    requires p != [] && c !in s && c !in r && IndexOfCI(s, p) >= 0
    ensures c !in ReplaceAllCI(s, p, r)
    decreases |s|, 0
  {
    var i := IndexOfCI(s, p);
    var rest := s[i + |p|..];
    SliceChars(s, i + |p|, |s|, c);
    ReplaceAllCIPatternChars(rest, p, r, c);
    ReplaceAllCIStep(s, p, r, rest, c);
  }

  /** `ReplaceAllCIChars` for the empty pattern, which puts `r` around every character. */
  lemma {:induction false} ReplaceAllCIEmptyChars(s: string, r: string, c: char)
    requires c !in s && c !in r
    ensures c !in ReplaceAllCI(s, [], r)
    decreases |s|
  {
    if s != [] {
      SliceChars(s, 1, |s|, c);
      ReplaceAllCIEmptyChars(s[1..], r, c);
      assert ReplaceAllCI(s, [], r) == r + [s[0]] + ReplaceAllCI(s[1..], [], r);
      assert s[0] in s;
    } else {
      assert ReplaceAllCI(s, [], r) == r;
    }
  }

  /** One step of `ReplaceAllCIChars` at the first match. */
  lemma ReplaceAllCIStep(s: string, p: string, r: string, rest: string, c: char)
    requires p != [] && IndexOfCI(s, p) >= 0 && c !in s && c !in r
    requires rest == s[IndexOfCI(s, p) + |p|..] && c !in ReplaceAllCI(rest, p, r)
    ensures c !in ReplaceAllCI(s, p, r)
  {
    var i := IndexOfCI(s, p);
    SliceChars(s, 0, i, c);
    ReplaceAllCIAt(s, p, r);
    var x, y := s[..i], ReplaceAllCI(s[i + |p|..], p, r);
    NotInConcat(x, r, c);
    NotInConcat(x + r, y, c);
  }

  lemma NotInConcat(a: string, b: string, c: char)
    requires c !in a && c !in b
    ensures c !in a + b
  {
  }

  lemma ReplaceAllCINone(s: string, p: string, r: string)
    requires p != [] && IndexOfCI(s, p) < 0
    ensures ReplaceAllCI(s, p, r) == s
  {
  }

  lemma ReplaceStartChars(s: string, p: string, r: string, c: char)
    requires c !in s && c !in r
    ensures c !in ReplaceStart(s, p, r)
  {
    if StartsWith(s, p) { SliceChars(s, |p|, |s|, c); }
  }

  lemma ReplaceEndChars(s: string, p: string, r: string, c: char)
    requires c !in s && c !in r
    ensures c !in ReplaceEnd(s, p, r)
  {
    if EndsWith(s, p) { SliceChars(s, 0, |s| - |p|, c); }
  }

  lemma ReplaceEndCIChars(s: string, p: string, r: string, c: char)
    requires c !in s && c !in r
    ensures c !in ReplaceEndCI(s, p, r)
  {
    if EndsWith(ToLower(s), ToLower(p)) { SliceChars(s, 0, |s| - |p|, c); }
  }

  lemma ReplaceDotStarChars(s: string, as_: seq<string>, bs: seq<string>, r: string, ci: bool, c: char)
    requires c !in s && c !in r
    ensures c !in ReplaceDotStar(s, as_, bs, r, ci)
  {
    match DotStarFrom(s, as_, bs, 0, ci)
    case Some((i, e)) => SliceChars(s, 0, i, c); SliceChars(s, e, |s|, c);
    case None =>
  }

  lemma {:induction false} ReplaceAllDotStarChars(s: string, as_: seq<string>, bs: seq<string>, r: string, ci: bool, c: char)
    requires c !in s && c !in r
    ensures c !in ReplaceAllDotStar(s, as_, bs, r, ci)
    decreases |s|
  {
    match DotStarFrom(s, as_, bs, 0, ci)
    case Some((i, e)) =>
      if e == 0 {
        if s != [] { SliceChars(s, 1, |s|, c); ReplaceAllDotStarChars(s[1..], as_, bs, r, ci, c); }
      } else {
        SliceChars(s, 0, i, c); SliceChars(s, e, |s|, c);
        ReplaceAllDotStarChars(s[e..], as_, bs, r, ci, c);
      }
    case None =>
  }

  lemma ReplaceFirstAltChars(s: string, alts: seq<string>, r: string, ci: bool, c: char)
    requires c !in s && c !in r
    ensures c !in ReplaceFirstAlt(s, alts, r, ci)
  {
    match FirstAltFrom(s, alts, 0, ci)
    case Some((i, e)) => SliceChars(s, 0, i, c); SliceChars(s, e, |s|, c);
    case None =>
  }

  lemma {:induction false} ReplaceAllAltChars(s: string, alts: seq<string>, r: string, c: char)
    requires c !in s && c !in r
    ensures c !in ReplaceAllAlt(s, alts, r)
    decreases |s|
  {
    if s != [] {
      SliceChars(s, 1, |s|, c);
      ReplaceAllAltChars(s[1..], alts, r, c);
      assert s[0] in s;
      match FirstAltAt(s, alts, 0, |s|, false)
      case Some(e) =>
        if e > 0 {
          SliceChars(s, e, |s|, c);
          ReplaceAllAltChars(s[e..], alts, r, c);
        }
      case None =>
    }
  }

  lemma ReplaceSpacedChars(s: string, a: string, b: string, r: string, ci: bool, c: char)
    requires c !in s && c !in r
    ensures c !in ReplaceSpaced(s, a, b, r, ci)
  {
    match SpacedFrom(s, a, b, 0, ci)
    case Some((i, e)) => SliceChars(s, 0, i, c); SliceChars(s, e, |s|, c);
    case None =>
  }

  /** Replacing every occurrence of a one-character pattern leaves none behind. */
  lemma {:induction false} ReplaceAllRemovesChar(s: string, c: char, r: string)
    requires c !in r
    ensures c !in ReplaceAll(s, [c], r)
    decreases |s|
  {
    var i := IndexOf(s, [c]);
    IndexOfSpec(s, [c]);
    if i < 0 {
      forall k | 0 <= k < |s| ensures s[k] != c {
        assert !OccursAt(s, [c], k);
        assert s[k..k + 1] == [s[k]];
      }
    } else {
      assert c !in s[..i] by {
        forall j | 0 <= j < i ensures s[j] != c { assert !OccursAt(s, [c], j); }
      }
      ReplaceAllRemovesChar(s[i + 1..], c, r);
    }
  }

  // ----- numbers in text -------------------------------------------------------------

  /** The value of a decimal digit. */
  function DigitValue(c: char): (d: nat)
    ensures d <= 9
  {
    if IsDigit(c) then (c as int - '0' as int) else 0
  }

  /** `parseInt` of a string of decimal digits. */
  function ParseDigits(s: string): nat
  {
    if s == [] then 0 else ParseDigits(s[..|s| - 1]) * 10 + DigitValue(s[|s| - 1])
  }

  /** A `nat` in decimal, as a template literal `${n}` writes it. */
  function NatToString(n: nat): (r: string)
    ensures r != [] && forall k :: 0 <= k < |r| ==> IsDigit(r[k])
  {
    if n < 10 then [('0' as int + n) as char]
    else NatToString(n / 10) + [('0' as int + n % 10) as char]
  }

  /** The rendering of a number reads back as that number. */
  lemma {:induction false} ParseNatToString(n: nat)
    ensures ParseDigits(NatToString(n)) == n
  {
    if n >= 10 {
      ParseNatToString(n / 10);
      var r := NatToString(n);
      assert r[..|r| - 1] == NatToString(n / 10);
    }
  }

  // ----- evaluating a rule on a string it does not apply to ------------------------
  // Each lemma below turns "the pattern's first character is not in `s`" into
  // "the rule leaves `s` unchanged", which is cheap to check on literals.

  lemma {:induction false} AbsentIndexOf(s: string, p: string)
    requires p != [] && p[0] !in s
    ensures IndexOf(s, p) == -1
  {
    if s != [] {
      assert forall c :: c in s[1..] ==> c in s;
      AbsentIndexOf(s[1..], p);
    }
  }

  lemma AbsentFirst(s: string, p: string, r: string)
    requires p != [] && p[0] !in s
    ensures ReplaceFirst(s, p, r) == s
  {
    AbsentIndexOf(s, p);
  }

  lemma AbsentAll(s: string, p: string, r: string)
    requires p != [] && p[0] !in s
    ensures ReplaceAll(s, p, r) == s
  {
    AbsentIndexOf(s, p);
  }

  lemma AbsentStart(s: string, p: string, r: string)
    requires p != [] && p[0] !in s
    ensures ReplaceStart(s, p, r) == s
  {
  }

  lemma AbsentEnd(s: string, p: string, r: string)
    requires p != [] && p[0] !in s
    ensures ReplaceEnd(s, p, r) == s
  {
    EndsWithIff(s, p);
    if |p| <= |s| { assert s[|s| - |p|] in s; }
  }

  lemma AbsentWhole(s: string, p: string, r: string)
    requires p != [] && p[0] !in s
    ensures ReplaceWhole(s, p, r) == s
  {
  }

  lemma AbsentLower(s: string, c: char)
    requires Lower(c) !in s && Upper(Lower(c)) !in s
    ensures Lower(c) !in ToLower(s)
  {
    forall k | 0 <= k < |s| ensures ToLower(s)[k] != Lower(c) {
      assert s[k] in s;
    }
  }

  lemma AbsentFirstCI(s: string, p: string, r: string)
    requires p != [] && Lower(p[0]) !in s && Upper(Lower(p[0])) !in s
    ensures ReplaceFirstCI(s, p, r) == s
  {
    AbsentLower(s, p[0]);
    AbsentIndexOf(ToLower(s), ToLower(p));
  }

  lemma AbsentAllCI(s: string, p: string, r: string)
    requires p != [] && Lower(p[0]) !in s && Upper(Lower(p[0])) !in s
    ensures ReplaceAllCI(s, p, r) == s
  {
    AbsentLower(s, p[0]);
    AbsentIndexOf(ToLower(s), ToLower(p));
  }

  lemma AbsentEndCI(s: string, p: string, r: string)
    requires p != [] && Lower(p[0]) !in s && Upper(Lower(p[0])) !in s
    ensures ReplaceEndCI(s, p, r) == s
  {
    AbsentLower(s, p[0]);
    EndsWithIff(ToLower(s), ToLower(p));
    if |p| <= |s| { assert ToLower(s)[|s| - |p|] in ToLower(s); }
  }

  /** No alternative's first character (in either case, under `ci`) occurs in `s`. */
  predicate NoneStartIn(s: string, alts: seq<string>, ci: bool)
  {
    forall k :: 0 <= k < |alts| ==>
      && alts[k] != []
      && alts[k][0] !in s
      && (ci ==> Lower(alts[k][0]) !in s && Upper(Lower(alts[k][0])) !in s)
  }

  lemma {:induction false} AbsentDotStarAt(s: string, as_: seq<string>, bs: seq<string>, p: nat, ci: bool)
    requires p <= |s| && NoneStartIn(s, as_, ci)
    ensures DotStarAt(s, as_, bs, p, ci).None?
    decreases |as_|
  {
    if as_ != [] {
      var a := as_[0];
      if ci {
        AbsentLower(s, a[0]);
        if p < |s| { assert ToLower(s)[p] in ToLower(s); }
      } else {
        if p < |s| { assert s[p] in s; }
      }
      AbsentDotStarAt(s, as_[1..], bs, p, ci);
    }
  }

  lemma {:induction false} AbsentDotStarFrom(s: string, as_: seq<string>, bs: seq<string>, p: nat, ci: bool)
    requires p <= |s| && NoneStartIn(s, as_, ci)
    ensures DotStarFrom(s, as_, bs, p, ci).None?
    decreases |s| - p
  {
    AbsentDotStarAt(s, as_, bs, p, ci);
    if p < |s| { AbsentDotStarFrom(s, as_, bs, p + 1, ci); }
  }

  lemma AbsentDotStar(s: string, as_: seq<string>, bs: seq<string>, r: string, ci: bool)
    requires NoneStartIn(s, as_, ci)
    ensures ReplaceDotStar(s, as_, bs, r, ci) == s
  {
    AbsentDotStarFrom(s, as_, bs, 0, ci);
  }

  lemma AbsentAllDotStar(s: string, as_: seq<string>, bs: seq<string>, r: string, ci: bool)
    requires NoneStartIn(s, as_, ci)
    ensures ReplaceAllDotStar(s, as_, bs, r, ci) == s
  {
    AbsentDotStarFrom(s, as_, bs, 0, ci);
  }

  /** When `p` starts `s`, the first replacement is at the front. */
  lemma PresentFirst(s: string, p: string, r: string)
    requires |p| <= |s| && s[..|p|] == p
    ensures ReplaceFirst(s, p, r) == r + s[|p|..]
  {
    StartsWithIff(s, p);
  }

  /** A pattern holding a character that `s` lacks does not occur in `s`. */
  lemma AbsentCharFirst(s: string, p: string, r: string, c: char)
    requires c in p && c !in s
    ensures ReplaceFirst(s, p, r) == s
  {
    IndexOfSpec(s, p);
  }

  /** A `/(A).*(B)/g` replacement keeps the first character when `A` cannot begin there. */
  lemma ReplaceAllDotStarHead(s: string, a: string, bs: seq<string>, r: string)
    requires s != [] && a != [] && a[0] != s[0]
    ensures ReplaceAllDotStar(s, [a], bs, r, false) != []
    ensures ReplaceAllDotStar(s, [a], bs, r, false)[0] == s[0]
  {
    NoStartDotStarAt(s, [a], bs, 0, false);
    DotStarFromLeftmost(s, [a], bs, 0, false);
  }

  /** Removing characters keeps a first character that is not removed. */
  lemma RemoveCharsHead(s: string, cs: set<char>)
    requires s != [] && s[0] !in cs
    ensures RemoveChars(s, cs) != [] && RemoveChars(s, cs)[0] == s[0]
  {
  }

  /** Removing characters ignores a removed first character. */
  lemma RemoveCharsSkip(c: char, s: string, cs: set<char>)
    requires c in cs
    ensures RemoveChars([c] + s, cs) == RemoveChars(s, cs)
  {
    assert ([c] + s)[1..] == s;
  }

  // ----- whitespace runs around a character, and the first run ------------------

  /** The start of the run of `\s` characters that ends at `i`. */
  function SpaceRunStart(s: string, i: nat): (a: nat)
    requires i <= |s|
    ensures a <= i
    ensures forall k :: a <= k < i ==> IsSpace(s[k])
    ensures a == 0 || !IsSpace(s[a - 1])
  {
    if i > 0 && IsSpace(s[i - 1]) then SpaceRunStart(s, i - 1) else i
  }

  /**
   * `s.replace` with the regex `\s*c\s*`: the first `c`, together with the whitespace on
   * both sides of it. A match starting earlier would need `c` after its
   * whitespace, so the leftmost match surrounds the first `c`.
   */
  function ReplaceAround(s: string, c: char, r: string): string
  {
    var d := IndexOf(s, [c]);
    if d < 0 then s else s[..SpaceRunStart(s, d)] + r + s[SpaceRunEnd(s, d + 1)..]
  }

  /** A `c` with at least one `\s` on each side: `c` can be matched by `/\s+c\s+/` there. */
  predicate SpacedChar(s: string, c: char, d: nat)
  {
    0 < d < |s| - 1 && s[d] == c && IsSpace(s[d - 1]) && IsSpace(s[d + 1])
  }

  /** The first index at or after `p` holding a spaced `c`. */
  function SpacedCharFrom(s: string, c: char, p: nat): (d: Option<nat>)
    ensures d.Some? ==> p <= d.value && SpacedChar(s, c, d.value)
    ensures d.Some? ==> forall k :: p <= k < d.value ==> !SpacedChar(s, c, k)
    ensures d.None? ==> forall k :: p <= k ==> !SpacedChar(s, c, k)
    decreases |s| - p
  {
    if p >= |s| then None
    else if SpacedChar(s, c, p) then Some(p)
    else SpacedCharFrom(s, c, p + 1)
  }

  /**
   * `s.replace(/\s+c\s+/, r)`, for a `c` that is not `\s`: the leftmost match
   * is around the first spaced `c`, and takes the whole runs on both sides.
   */
  function ReplaceSpacedChar(s: string, c: char, r: string): string
  {
    match SpacedCharFrom(s, c, 0)
    case Some(d) => s[..SpaceRunStart(s, d)] + r + s[SpaceRunEnd(s, d + 1)..]
    case None => s
  }

  /** The index of the first `\s` character at or after `p`. */
  function FirstSpace(s: string, p: nat): (i: Option<nat>)
    ensures i.Some? ==> p <= i.value < |s| && IsSpace(s[i.value])
    ensures i.Some? ==> forall k :: p <= k < i.value ==> !IsSpace(s[k])
    ensures i.None? ==> forall k :: p <= k < |s| ==> !IsSpace(s[k])
    decreases |s| - p
  {
    if p >= |s| then None
    else if IsSpace(s[p]) then Some(p)
    else FirstSpace(s, p + 1)
  }

  /** `s.replace(/\s+/, r)`: the first run of `\s` characters, all of it. */
  function ReplaceFirstSpaceRun(s: string, r: string): string
  {
    match FirstSpace(s, 0)
    case Some(i) => s[..i] + r + s[SpaceRunEnd(s, i)..]
    case None => s
  }

  /** No `\s` at either end: what `trim` leaves. */
  predicate Trimmed(s: string)
  {
    s == [] || (!IsSpace(s[0]) && !IsSpace(s[|s| - 1]))
  }

  /** Mapping characters to a non-space character keeps a string trimmed. */
  lemma MapCharsTrimmed(s: string, cs: set<char>, c: char)
    requires Trimmed(s) && !IsSpace(c)
    ensures Trimmed(MapChars(s, cs, c))
  {
    var r := MapChars(s, cs, c);
    if s != [] {
      assert r[0] == (if s[0] in cs then c else s[0]);
      assert r[|r| - 1] == (if s[|s| - 1] in cs then c else s[|s| - 1]);
    }
  }

  /** A replacement that is itself trimmed and non-empty keeps a string trimmed. */
  lemma ReplaceFirstTrimmed(s: string, p: string, r: string)
    requires Trimmed(s) && p != [] && r != [] && Trimmed(r)
    ensures Trimmed(ReplaceFirst(s, p, r))
  {
    var i := IndexOf(s, p);
    if i >= 0 {
      var u := s[..i] + r + s[i + |p|..];
      assert u[0] == if i == 0 then r[0] else s[0];
      assert u[|u| - 1] == if i + |p| == |s| then r[|r| - 1] else s[|s| - 1];
    }
  }

  lemma ReplaceEndTrimmed(s: string, p: string, r: string)
    requires Trimmed(s) && p != [] && r != [] && Trimmed(r)
    ensures Trimmed(ReplaceEnd(s, p, r))
  {
    if EndsWith(s, p) {
      var u := s[..|s| - |p|] + r;
      assert u[0] == if |s| == |p| then r[0] else s[0];
      assert u[|u| - 1] == r[|r| - 1];
    }
  }

  /**
   * `p` is not found in `s` when its first character occurs in `s` only at
   * the front, and `s` does not begin with `p` (they differ at `k`).
   */
  lemma AbsentPastHead(s: string, p: string, r: string, k: nat)
    requires s != [] && p != [] && p[0] !in s[1..]
    requires k < |p| && (|p| <= |s| ==> s[k] != p[k])
    ensures ReplaceFirst(s, p, r) == s
  {
    IndexOfSpec(s, p);
    forall j | 0 < j < |s| ensures s[j] != p[0] {
      assert s[j] == s[1..][j - 1];
    }
  }

  /** A pattern holding a character that `s` lacks is never replaced in `s`. */
  lemma AbsentCharAll(s: string, p: string, r: string, c: char)
    requires c in p && c !in s
    ensures ReplaceAll(s, p, r) == s
  {
    IndexOfSpec(s, p);
    forall j | 0 <= j && j + |p| <= |s|
      ensures !OccursAt(s, p, j)
    {
      var m :| 0 <= m < |p| && p[m] == c;
      assert s[j..j + |p|][m] != p[m] by { assert s[j + m] in s; }
    }
  }

  /**
   * In `u + q + v`, a pattern whose first character occurs only at the front
   * of `q`, and which does not begin `q + v`, is never replaced.
   */
  lemma AbsentAllBetween(u: string, q: string, v: string, p: string, r: string)
    requires p != [] && q != [] && p[0] !in u && p[0] !in q[1..] && p[0] !in v
    requires !OccursAt(q + v, p, 0)
    ensures ReplaceAll(u + q + v, p, r) == u + q + v
  {
    var s := u + q + v;
    IndexOfSpec(s, p);
    forall i | 0 <= i && i + |p| <= |s|
      ensures !OccursAt(s, p, i)
    {
      NotAtBetween(u, q, v, p, i);
    }
  }

  lemma NotAtBetween(u: string, q: string, v: string, p: string, i: nat)
    requires p != [] && q != [] && p[0] !in u && p[0] !in q[1..] && p[0] !in v
    requires !OccursAt(q + v, p, 0) && i + |p| <= |u + q + v|
    ensures !OccursAt(u + q + v, p, i)
  {
    var s := u + q + v;
    if i < |u| {
      assert s[i..i + |p|][0] == u[i];
    } else if i == |u| {
      assert s[i..i + |p|] == (q + v)[..|p|];
    } else if i < |u| + |q| {
      assert s[i..i + |p|][0] == q[1..][i - |u| - 1];
    } else {
      assert s[i..i + |p|][0] == v[i - |u| - |q|];
    }
  }

  /** The first occurrence of `p` in `u + p + v` is the one after `u` when `u` lacks its first character. */
  lemma ReplaceAllSplit(u: string, p: string, v: string, r: string)
    requires p != [] && p[0] !in u
    ensures ReplaceAll(u + p + v, p, r) == u + r + ReplaceAll(v, p, r)
  {
    var s := u + p + v;
    IndexOfSpec(s, p);
    assert s[|u|..|u| + |p|] == p;
    forall j | 0 <= j < |u|
      ensures !OccursAt(s, p, j)
    {
      if j + |p| <= |s| {
        assert s[j..j + |p|][0] == u[j];
      }
    }
    assert OccursAt(s, p, |u|);
    assert IndexOf(s, p) == |u|;
    assert s[..|u|] == u && s[|u| + |p|..] == v;
    ReplaceAllAt(s, p, r);
  }

  /** Alternatives that each hold a character `s` lacks (`alts[i][ks[i]]`) are never replaced in `s`. */
  lemma {:induction false} AbsentAllAlt(s: string, alts: seq<string>, r: string, ks: seq<nat>)
    requires |ks| == |alts|
    requires forall i :: 0 <= i < |alts| ==> ks[i] < |alts[i]| && alts[i][ks[i]] !in s
    ensures ReplaceAllAlt(s, alts, r) == s
    decreases |s|
  {
    NoAltAtFront(s, alts, ks);
    assert FirstAltAt(s, alts, 0, |s|, false).None?;
    if s != [] {
      assert forall c :: c in s[1..] ==> c in s;
      AbsentAllAlt(s[1..], alts, r, ks);
      assert [s[0]] + s[1..] == s;
    }
  }

  /** No alternative holding a character `s` lacks occurs at the front of `s`. */
  lemma NoAltAtFront(s: string, alts: seq<string>, ks: seq<nat>)
    requires |ks| == |alts|
    requires forall i :: 0 <= i < |alts| ==> ks[i] < |alts[i]| && alts[i][ks[i]] !in s
    ensures forall a :: a in alts && |a| <= |s| ==> !OccursAtCase(s, a, 0, false)
  {
    forall a | a in alts && |a| <= |s|
      ensures !OccursAtCase(s, a, 0, false)
    {
      var i :| 0 <= i < |alts| && alts[i] == a;
      var m := ks[i];
      assert s[..|a|][m] != a[m] by { assert s[m] in s; }
    }
  }

  /** A pattern holding a character that `s` lacks is not found in `s`. */
  lemma AbsentCharIndexOf(s: string, p: string, c: char)
    requires c in p && c !in s
    ensures IndexOf(s, p) == -1
  {
    IndexOfSpec(s, p);
    forall j | 0 <= j && j + |p| <= |s|
      ensures !OccursAt(s, p, j)
    {
      var m :| 0 <= m < |p| && p[m] == c;
      assert s[j..j + |p|][m] != p[m] by { assert s[j + m] in s; }
    }
  }

  /** `/A.*B/` with a literal `A` holding a character that `s` lacks has no match in `s`. */
  lemma AbsentCharDotStarFrom(s: string, a: string, bs: seq<string>, c: char)
    requires c in a && c !in s
    ensures DotStarFrom(s, [a], bs, 0, false).None?
  {
    forall q | 0 <= q <= |s|
      ensures DotStarAt(s, [a], bs, q, false).None?
    {
      if q + |a| <= |s| {
        var m :| 0 <= m < |a| && a[m] == c;
        assert s[q..q + |a|][m] != a[m] by { assert s[q + m] in s; }
      }
      NoStartDotStarAt(s, [a], bs, q, false);
    }
    DotStarFromLeftmost(s, [a], bs, 0, false);
  }

  /** The search for the leftmost `/A.*B/` passes over indices where no match begins. */
  lemma {:induction false} DotStarFromSkip(s: string, as_: seq<string>, bs: seq<string>, p: nat, i: nat, ci: bool)
    requires p <= i <= |s|
    requires forall q :: p <= q < i ==> DotStarAt(s, as_, bs, q, ci).None?
    ensures DotStarFrom(s, as_, bs, p, ci) == DotStarFrom(s, as_, bs, i, ci)
    decreases i - p
  {
    if p < i {
      DotStarFromSkip(s, as_, bs, p + 1, i, ci);
    }
  }

  /** Greedy `.*B` with one literal `B` that ends the range at `hi` ends there. */
  lemma {:induction false} LastFitTop(s: string, b: string, lo: nat, k: nat, hi: nat, ci: bool)
    requires b != [] && lo + |b| <= hi <= |s| && hi - |b| <= k <= hi
    requires OccursAtCase(s, b, hi - |b|, ci)
    ensures LastFit(s, [b], lo, k, hi, ci) == Some(hi)
    decreases k
  {
    FirstAltAtOne(s, b, k, hi, ci);
    if k > hi - |b| {
      LastFitStep(s, [b], lo, k, hi, ci);
      LastFitTop(s, b, lo, k - 1, hi, ci);
    } else {
      LastFitHere(s, [b], lo, k, hi, ci);
    }
  }

  lemma LastFitHere(s: string, bs: seq<string>, lo: nat, k: nat, hi: nat, ci: bool)
    requires lo <= k <= hi <= |s| && FirstAltAt(s, bs, k, hi, ci).Some?
    ensures LastFit(s, bs, lo, k, hi, ci) == FirstAltAt(s, bs, k, hi, ci)
  {
  }

  lemma LastFitStep(s: string, bs: seq<string>, lo: nat, k: nat, hi: nat, ci: bool)
    requires lo < k <= hi <= |s| && FirstAltAt(s, bs, k, hi, ci).None?
    ensures LastFit(s, bs, lo, k, hi, ci) == LastFit(s, bs, lo, k - 1, hi, ci)
  {
  }

  /** A single alternative matches at `k` exactly when it fits before `hi` and occurs there. */
  lemma FirstAltAtOne(s: string, b: string, k: nat, hi: nat, ci: bool)
    requires hi <= |s|
    ensures FirstAltAt(s, [b], k, hi, ci) == if k + |b| <= hi && OccursAtCase(s, b, k, ci) then Some(k + |b|) else None
  {
    assert [b][1..] == [];
  }

  /**
   * `/(A1|A2|...).*(B)/` on a text of one line that begins with one of the
   * `A`s and ends with `B`: the match found at the start runs to the end.
   */
  lemma {:induction false} DotStarAtWholeLine(s: string, as_: seq<string>, b: string, ci: bool)
    requires b != [] && |b| <= |s| && OccursAtCase(s, b, |s| - |b|, ci)
    requires forall k :: 0 <= k < |s| ==> !IsLineTerminator(s[k])
    requires forall k :: 0 <= k < |as_| ==> |as_[k]| + |b| <= |s|
    requires exists k :: 0 <= k < |as_| && OccursAtCase(s, as_[k], 0, ci)
    ensures DotStarAt(s, as_, [b], 0, ci) == Some(|s|)
    decreases |as_|
  {
    var a := as_[0];
    if OccursAtCase(s, a, 0, ci) {
      assert SegEnd(s, |a|) == |s|;
      LastFitTop(s, b, |a|, |s|, |s|, ci);
    } else {
      var k :| 0 <= k < |as_| && OccursAtCase(s, as_[k], 0, ci);
      assert as_[1..][k - 1] == as_[k];
      DotStarAtWholeLine(s, as_[1..], b, ci);
    }
  }

  /** Then `s.replace(/(A1|A2|...).*(B)/, r)` is `r`. */
  lemma DotStarWholeLine(s: string, as_: seq<string>, b: string, r: string, ci: bool)
    requires b != [] && |b| <= |s| && OccursAtCase(s, b, |s| - |b|, ci)
    requires forall k :: 0 <= k < |s| ==> !IsLineTerminator(s[k])
    requires forall k :: 0 <= k < |as_| ==> |as_[k]| + |b| <= |s|
    requires exists k :: 0 <= k < |as_| && OccursAtCase(s, as_[k], 0, ci)
    ensures ReplaceDotStar(s, as_, [b], r, ci) == r
  {
    DotStarAtWholeLine(s, as_, b, ci);
    assert s[..0] + r + s[|s|..] == r;
  }

  /** An occurrence is one in either case. */
  lemma OccursAtAnyCase(s: string, p: string, i: nat, ci: bool)
    requires OccursAt(s, p, i)
    ensures OccursAtCase(s, p, i, ci)
  {
    ToLowerSlice(s, i, i + |p|);
  }

  /** A character other than an ASCII letter is its own lower case, and the only one. */
  lemma LowerNonLetter(x: char, c: char)
    requires !IsAsciiUpper(c) && !IsAsciiLower(c)
    ensures Lower(c) == c
    ensures Lower(x) == c ==> x == c
  {
  }

  /**
   * A pattern holding the non-letter `c` at or after index `n` does not occur,
   * in either case, in a text that holds no `c` from index `n` on.
   */
  lemma LateCharNowhere(s: string, a: string, n: nat, c: char, ci: bool, q: int)
    requires n <= |a| && c in a[n..]
    requires forall j :: n <= j < |s| ==> s[j] != c
    requires !IsAsciiUpper(c) && !IsAsciiLower(c)
    ensures !OccursAtCase(s, a, q, ci)
  {
    if 0 <= q && q + |a| <= |s| {
      var j :| 0 <= j < |a| - n && a[n..][j] == c;
      var m := n + j;
      assert a[m] == c && s[q + m] != c;
      if ci {
        LowerNonLetter(s[q + m], c);
        assert ToLower(s)[q..q + |a|][m] != ToLower(a)[m];
      } else {
        assert s[q..q + |a|][m] != a[m];
      }
    }
  }

  /** Such a pattern is not found by `indexOf`. */
  lemma LateCharIndexOf(s: string, p: string, n: nat, c: char)
    requires n <= |p| && c in p[n..]
    requires forall j :: n <= j < |s| ==> s[j] != c
    requires !IsAsciiUpper(c) && !IsAsciiLower(c)
    ensures IndexOf(s, p) == -1
  {
    IndexOfSpec(s, p);
    if IndexOf(s, p) >= 0 {
      LateCharNowhere(s, p, n, c, false, IndexOf(s, p));
    }
  }

  /**
   * In a text whose only `c` sits at index `i`, a pattern holding `c` at
   * index `m` can occur only at `i - m`.
   */
  lemma PinnedNowhere(s: string, a: string, m: nat, i: nat, c: char, ci: bool, q: int)
    requires m < |a| && a[m] == c
    requires forall j :: 0 <= j < |s| && j != i ==> s[j] != c
    requires !IsAsciiUpper(c) && !IsAsciiLower(c)
    requires m <= i ==> !OccursAtCase(s, a, i - m, ci)
    ensures !OccursAtCase(s, a, q, ci)
  {
    if 0 <= q && q + |a| <= |s| && q + m != i {
      assert s[q + m] != c;
      if ci {
        LowerNonLetter(s[q + m], c);
        assert ToLower(s)[q..q + |a|][m] != ToLower(a)[m];
      } else {
        assert s[q..q + |a|][m] != a[m];
      }
    }
  }

  /** Such a pattern that does not occur at `i - m` is not found by `indexOf`. */
  lemma PinnedIndexOf(s: string, p: string, m: nat, i: nat, c: char)
    requires m < |p| && p[m] == c
    requires forall j :: 0 <= j < |s| && j != i ==> s[j] != c
    requires !IsAsciiUpper(c) && !IsAsciiLower(c)
    requires m <= i ==> !OccursAt(s, p, i - m)
    ensures IndexOf(s, p) == -1
  {
    IndexOfSpec(s, p);
    if IndexOf(s, p) >= 0 {
      PinnedNowhere(s, p, m, i, c, false, IndexOf(s, p));
    }
  }

  /** `/(A1|A2|...).*(B...)/` whose every `A` is such a pattern has no match. */
  lemma PinnedDotStarFrom(s: string, as_: seq<string>, bs: seq<string>, m: nat, i: nat, c: char, ci: bool)
    requires forall k :: 0 <= k < |as_| ==> m < |as_[k]| && as_[k][m] == c
    requires forall k :: 0 <= k < |as_| ==> m <= i ==> !OccursAtCase(s, as_[k], i - m, ci)
    requires forall j :: 0 <= j < |s| && j != i ==> s[j] != c
    requires !IsAsciiUpper(c) && !IsAsciiLower(c)
    ensures DotStarFrom(s, as_, bs, 0, ci).None?
  {
    forall q | 0 <= q <= |s|
      ensures DotStarAt(s, as_, bs, q, ci).None?
    {
      forall k | 0 <= k < |as_|
        ensures !OccursAtCase(s, as_[k], q, ci)
      {
        PinnedNowhere(s, as_[k], m, i, c, ci, q);
      }
      NoStartDotStarAt(s, as_, bs, q, ci);
    }
    DotStarFromLeftmost(s, as_, bs, 0, ci);
  }

  /** A pattern whose letter `j` differs from `s[q + j]`, even ignoring case, does not occur at `q`. */
  lemma MismatchAt(s: string, a: string, q: nat, j: nat, ci: bool)
    requires j < |a| && q + j < |s| && Lower(s[q + j]) != Lower(a[j])
    ensures !OccursAtCase(s, a, q, ci)
  {
    if q + |a| <= |s| {
      if ci {
        assert ToLower(s)[q..q + |a|][j] != ToLower(a)[j];
      } else {
        assert s[q..q + |a|][j] != a[j];
      }
    }
  }

  /** `/(A1|A2|...).*(B...)/` whose every `A` is such a pattern has no match. */
  lemma LateCharDotStarFrom(s: string, as_: seq<string>, bs: seq<string>, n: nat, c: char, ci: bool)
    requires forall k :: 0 <= k < |as_| ==> n <= |as_[k]| && c in as_[k][n..]
    requires forall j :: n <= j < |s| ==> s[j] != c
    requires !IsAsciiUpper(c) && !IsAsciiLower(c)
    ensures DotStarFrom(s, as_, bs, 0, ci).None?
  {
    forall q | 0 <= q <= |s|
      ensures DotStarAt(s, as_, bs, q, ci).None?
    {
      forall k | 0 <= k < |as_|
        ensures !OccursAtCase(s, as_[k], q, ci)
      {
        LateCharNowhere(s, as_[k], n, c, ci, q);
      }
      NoStartDotStarAt(s, as_, bs, q, ci);
    }
    DotStarFromLeftmost(s, as_, bs, 0, ci);
  }

  // ----- strings known letter by letter ---------------------------------------------------
  // Facts about a literal are cheapest to prove on a variable that is only
  // known to be spelled like it: the solver then does not evaluate every
  // function of the literal.

  /** `s` holds the characters of `w`, one by one. */
  predicate Spelled(s: string, w: string)
  {
    |s| == |w| && forall i :: 0 <= i < |s| ==> s[i] == w[i]
  }

  lemma SpelledSame(s: string, w: string)
    requires Spelled(s, w)
    ensures s == w
  {
  }
}
