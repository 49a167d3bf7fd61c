/**
 * Rewrite tables: a long `.replace(...).replace(...)...` chain of the
 * scripts written as a sequence of rules, each rule one call of the chain,
 * applied in the order they are listed.
 */
module Rewrite {
  import opened Str

  /** One call of a replace chain. */
  datatype Rule =
    | First(p: string, r: string)       // .replace("p", r), or a regex that is a plain literal
    | All(p: string, r: string)         // .replaceAll("p", r), or /p/g
    | FirstCI(p: string, r: string)     // .replace(/p/i, r)
    | AllCI(p: string, r: string)       // .replaceAll(/p/gi, r)
    | Start(p: string, r: string)       // .replace(/^p/, r)
    | End(p: string, r: string)         // .replace(/p$/, r)
    | EndCI(p: string, r: string)       // .replace(/p$/i, r)
    | Whole(p: string, r: string)       // .replace(/^p$/, r)
    | FirstAlt(alts: seq<string>, r: string, ci: bool)                     // .replace(/(a|b)/, r)
    | AllAlt(alts: seq<string>, r: string)                                 // .replaceAll(/(a|b)/g, r)
    | Span(heads: seq<string>, tails: seq<string>, r: string, ci: bool)    // .replace(/(A).*(B)/, r)
    | SpanAll(heads: seq<string>, tails: seq<string>, r: string, ci: bool) // .replaceAll(/(A).*(B)/g, r)
    | Spaced(a: string, b: string, r: string, ci: bool)                    // .replace(/a\s+b/, r)

  function Apply(rule: Rule, s: string): string
  {
    match rule
    case First(p, r) => ReplaceFirst(s, p, r)
    case All(p, r) => ReplaceAll(s, p, r)
    case FirstCI(p, r) => ReplaceFirstCI(s, p, r)
    case AllCI(p, r) => ReplaceAllCI(s, p, r)
    case Start(p, r) => ReplaceStart(s, p, r)
    case End(p, r) => ReplaceEnd(s, p, r)
    case EndCI(p, r) => ReplaceEndCI(s, p, r)
    case Whole(p, r) => ReplaceWhole(s, p, r)
    case FirstAlt(alts, r, ci) => ReplaceFirstAlt(s, alts, r, ci)
    case AllAlt(alts, r) => ReplaceAllAlt(s, alts, r)
    case Span(heads, tails, r, ci) => ReplaceDotStar(s, heads, tails, r, ci)
    case SpanAll(heads, tails, r, ci) => ReplaceAllDotStar(s, heads, tails, r, ci)
    case Spaced(a, b, r, ci) => ReplaceSpaced(s, a, b, r, ci)
  }

  /** The whole chain: `rules[0]` first, the last rule last. */
  function ApplyAll(s: string, rules: seq<Rule>): string
    decreases |rules|
  {
    if rules == [] then s else Apply(rules[|rules| - 1], ApplyAll(s, rules[..|rules| - 1]))
  }

  /** A chain made of two chains runs the first to completion, then the second. */
  lemma {:induction false} ApplyAllConcat(s: string, a: seq<Rule>, b: seq<Rule>)
    ensures ApplyAll(s, a + b) == ApplyAll(ApplyAll(s, a), b)
    decreases |b|
  {
    if b == [] {
      assert a + b == a;
    } else {
      var init := b[..|b| - 1];
      assert (a + b)[..|a + b| - 1] == a + init;
      assert (a + b)[|a + b| - 1] == b[|b| - 1];
      ApplyAllConcat(s, a, init);
    }
  }

  /**
   * The order of a cascade: rule `k` rewrites what the rules before it
   * produced, and the rules after it see only its output.
   */
  lemma ApplyAllAt(s: string, rules: seq<Rule>, k: nat)
    requires k < |rules|
    ensures ApplyAll(s, rules) == ApplyAll(Apply(rules[k], ApplyAll(s, rules[..k])), rules[k + 1..])
  {
    assert rules == rules[..k] + [rules[k]] + rules[k + 1..];
    ApplyAllConcat(s, rules[..k] + [rules[k]], rules[k + 1..]);
    ApplyAllConcat(s, rules[..k], [rules[k]]);
    assert ([rules[k]])[..0] == [];
  }

  /** The pattern of `rule` can be found in `s`. */
  predicate Matches(rule: Rule, s: string)
  {
    match rule
    case First(p, _) => Contains(s, p)
    case All(p, _) => Contains(s, p)
    case FirstCI(p, _) => ContainsCI(s, p)
    case AllCI(p, _) => ContainsCI(s, p)
    case Start(p, _) => StartsWith(s, p)
    case End(p, _) => EndsWith(s, p)
    case EndCI(p, _) => EndsWith(ToLower(s), ToLower(p))
    case Whole(p, _) => s == p
    case FirstAlt(alts, _, ci) => FirstAltFrom(s, alts, 0, ci).Some?
    case AllAlt(alts, _) => FirstAltFrom(s, alts, 0, false).Some?
    case Span(heads, tails, _, ci) => DotStarFrom(s, heads, tails, 0, ci).Some?
    case SpanAll(heads, tails, _, ci) => DotStarFrom(s, heads, tails, 0, ci).Some?
    case Spaced(a, b, _, ci) => SpacedFrom(s, a, b, 0, ci).Some?
  }

  lemma {:induction false} ReplaceAllAltNoMatch(s: string, alts: seq<string>, r: string, p: nat)
    requires p <= |s|
    requires forall q :: p <= q <= |s| ==> FirstAltAt(s, alts, q, |s|, false).None?
    ensures ReplaceAllAlt(s[p..], alts, r) == s[p..]
    decreases |s| - p
  {
    var t := s[p..];
    assert FirstAltAt(t, alts, 0, |t|, false).None? by { AltAtShift(s, alts, p, |s| - p, 0); }
    if p < |s| {
      ReplaceAllAltNoMatch(s, alts, r, p + 1);
      assert t[1..] == s[p + 1..];
    }
  }

  /** Trying the alternatives at `k` in `s[p..]` is trying them at `p + k` in `s`. */
  lemma {:induction false} AltAtShift(s: string, alts: seq<string>, p: nat, n: nat, k: nat)
    requires p + n == |s| && k <= n
    ensures FirstAltAt(s[p..], alts, k, n, false).None? <==> FirstAltAt(s, alts, p + k, |s|, false).None?
    decreases |alts|
  {
    if alts != [] {
      OccursShift(s, alts[0], p, k);
      AltAtShift(s, alts[1..], p, n, k);
    }
  }

  /** An occurrence at `k` in `s[p..]` is one at `p + k` in `s`. */
  lemma OccursShift(s: string, a: string, p: nat, k: nat)
    requires p + k <= |s|
    ensures OccursAtCase(s[p..], a, k, false) <==> OccursAtCase(s, a, p + k, false)
  {
    var t := s[p..];
    if k + |a| <= |t| {
      assert t[k..k + |a|] == s[p + k..p + k + |a|];
    }
  }

  /** A rule whose pattern does not occur leaves the string alone. */
  lemma RuleUntouched(rule: Rule, s: string)
    requires !Matches(rule, s)
    ensures Apply(rule, s) == s
  {
    match rule
    case All(p, r) =>
      IndexOfSpec(s, p);
    case AllCI(p, r) =>
    case AllAlt(alts, r) =>
      ReplaceAllAltNoMatch(s, alts, r, 0);
    case SpanAll(heads, tails, r, ci) =>
    case _ =>
  }

  /** A chain none of whose patterns occurs in `s` leaves it unchanged. */
  lemma {:induction false} ApplyAllUntouched(s: string, rules: seq<Rule>)
    requires forall k :: 0 <= k < |rules| ==> !Matches(rules[k], s)
    ensures ApplyAll(s, rules) == s
    decreases |rules|
  {
    if rules != [] {
      ApplyAllUntouched(s, rules[..|rules| - 1]);
      RuleUntouched(rules[|rules| - 1], s);
    }
  }

  /** A chain whose first rule turns `s` into `t`, and none of whose later patterns occurs in `t`, yields `t`. */
  lemma ApplyAllFirstOnly(s: string, rules: seq<Rule>, t: string)
    requires rules != [] && Apply(rules[0], s) == t
    requires forall k :: 1 <= k < |rules| ==> !Matches(rules[k], t)
    ensures ApplyAll(s, rules) == t
  {
    ApplyAllAt(s, rules, 0);
    assert rules[..0] == [];
    ApplyAllUntouched(t, rules[1..]);
  }

  /** A chain in which only rule `k` matches, turning `s` into `t`, yields `t`. */
  lemma ApplyAllOneFires(s: string, rules: seq<Rule>, k: nat, t: string)
    requires k < |rules| && Apply(rules[k], s) == t
    requires forall i :: 0 <= i < k ==> !Matches(rules[i], s)
    requires forall i :: k < i < |rules| ==> !Matches(rules[i], t)
    ensures ApplyAll(s, rules) == t
  {
    ApplyAllAt(s, rules, k);
    ApplyAllUntouched(s, rules[..k]);
    ApplyAllUntouched(t, rules[k + 1..]);
  }

  /** The replacement text of a rule. */
  function Replacement(rule: Rule): string
  {
    rule.r
  }

  /** A character that neither `s` nor the replacement holds is not in the result. */
  lemma RuleKeepsOut(rule: Rule, s: string, c: char)
    requires c !in s && c !in Replacement(rule)
    ensures c !in Apply(rule, s)
  {
    match rule
    case First(p, r) => ReplaceFirstChars(s, p, r, c);
    case All(p, r) => ReplaceAllChars(s, p, r, c);
    case FirstCI(p, r) => ReplaceFirstCIChars(s, p, r, c);
    case AllCI(p, r) => ReplaceAllCIChars(s, p, r, c);
    case Start(p, r) => ReplaceStartChars(s, p, r, c);
    case End(p, r) => ReplaceEndChars(s, p, r, c);
    case EndCI(p, r) => ReplaceEndCIChars(s, p, r, c);
    case Whole(p, r) =>
    case FirstAlt(alts, r, ci) => ReplaceFirstAltChars(s, alts, r, ci, c);
    case AllAlt(alts, r) => ReplaceAllAltChars(s, alts, r, c);
    case Span(heads, tails, r, ci) => ReplaceDotStarChars(s, heads, tails, r, ci, c);
    case SpanAll(heads, tails, r, ci) => ReplaceAllDotStarChars(s, heads, tails, r, ci, c);
    case Spaced(a, b, r, ci) => ReplaceSpacedChars(s, a, b, r, ci, c);
  }

  /** A chain cannot introduce a character that none of its replacements holds. */
  lemma {:induction false} ApplyAllKeepsOut(s: string, rules: seq<Rule>, c: char)
    requires c !in s
    requires forall k :: 0 <= k < |rules| ==> c !in Replacement(rules[k])
    ensures c !in ApplyAll(s, rules)
    decreases |rules|
  {
    if rules != [] {
      ApplyAllKeepsOut(s, rules[..|rules| - 1], c);
      RuleKeepsOut(rules[|rules| - 1], ApplyAll(s, rules[..|rules| - 1]), c);
    }
  }
}
