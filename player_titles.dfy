/**
 * The decklist-title rewrites of generatePlayers.js that run before the
 * player regex is tried: `fixSpecificDecklistTitles`, which marks the side
 * in front of the archetype name, and `matchableDecklistTitle`, which drops
 * the round and spells tournament names out.
 */
module PlayerTitles {
  import opened Str
  import opened Cards
  import Rewrite

  // ----- matchableDecklistTitle (lines 242-268) ---------------------------------

  /** Lines 29-46: the round names, in the order the regex alternation tries them. */
  const RoundNames: seq<string> := [
    "Day 1", "Day 2", "Day 3", "Top 4", "Top 8", "Top 16", "Elite 8", "Quarterfinals",
    "Semifinals", "Semi-Finals", "Finals", "Tiebreaker", "Round 1", "Round 2",
    "Final Four", "Sweet 16"]

  /** `title.replace(/(n1|n2|...)/i, "")`: the leftmost round name, in any case, is cut out. */
  function DropRound(title: string, names: seq<string>): string
  {
    ReplaceFirstAlt(title, names, "", true)
  }

  /**
   * The round removal: when some name occurs, in any case, the leftmost
   * occurrence (the first listed name among those starting there) is cut out
   * and nothing else changes; when none occurs the title is kept.
   */
  lemma DropRoundSpec(title: string, names: seq<string>)
    ensures var m := FirstAltFrom(title, names, 0, true);
      m.Some? ==>
        var (i, e) := m.value;
        DropRound(title, names) == title[..i] + title[e..]
        && (exists a :: a in names && e == i + |a| && OccursAtCase(title, a, i, true))
        && forall q, a :: 0 <= q < i && a in names && q + |a| <= |title| ==> !OccursAtCase(title, a, q, true)
    ensures FirstAltFrom(title, names, 0, true).None? ==>
      DropRound(title, names) == title
      && forall q, a :: 0 <= q && a in names && q + |a| <= |title| ==> !OccursAtCase(title, a, q, true)
  {
    var m := FirstAltFrom(title, names, 0, true);
    if m.Some? {
      DropRoundFound(title, names, m.value.0, m.value.1);
    } else {
      DropRoundMissing(title, names);
    }
  }

  lemma DropRoundFound(title: string, names: seq<string>, i: nat, e: nat)
    requires FirstAltFrom(title, names, 0, true) == Some((i, e))
    ensures DropRound(title, names) == title[..i] + title[e..]
    ensures exists a :: a in names && e == i + |a| && OccursAtCase(title, a, i, true)
    ensures forall q, a :: 0 <= q < i && a in names && q + |a| <= |title| ==> !OccursAtCase(title, a, q, true)
  {
    assert title[..i] + "" + title[e..] == title[..i] + title[e..];
    forall q, a | 0 <= q < i && a in names && q + |a| <= |title|
      ensures !OccursAtCase(title, a, q, true)
    {
      NoAltAt(title, names, a, q, true);
    }
  }

  lemma DropRoundMissing(title: string, names: seq<string>)
    requires FirstAltFrom(title, names, 0, true).None?
    ensures DropRound(title, names) == title
    ensures forall q, a :: 0 <= q && a in names && q + |a| <= |title| ==> !OccursAtCase(title, a, q, true)
  {
    forall q, a | 0 <= q && a in names && q + |a| <= |title|
      ensures !OccursAtCase(title, a, q, true)
    {
      NoAltAt(title, names, a, q, true);
    }
  }

  /** Where no alternative occurs, no single one of them does. */
  lemma NoAltAt(s: string, names: seq<string>, a: string, q: nat, ci: bool)
    requires a in names && q + |a| <= |s| && FirstAltAt(s, names, q, |s|, ci).None?
    ensures !OccursAtCase(s, a, q, ci)
  {
  }

  /** Lines 247-263: the plain replacements, each of the first occurrence only. */
  const MatchableRules: seq<Rewrite.Rule> := [
    Rewrite.First("  ", " "),
    Rewrite.First("EUROPEAN CHAMPIONSHIPS", "European Championship"),
    Rewrite.First("TMW", "Texas Mini-Worlds"),
    Rewrite.First("EGP", "Endor Grand Prix"),
    Rewrite.First(" EC ", " European Championship "),
    Rewrite.First(" NAC ", "North American Continentals "),
    Rewrite.First("Regional ", "Regionals "),
    Rewrite.First("Playoff ", "Playoffs "),
    Rewrite.First("Championships", "Championship"),
    Rewrite.First("Ryloth", "Ryloth Regionals"),
    Rewrite.First(" EUR ", " "),
    Rewrite.First(" USA ", " "),
    Rewrite.First("(TOP 8)", "Top 8")]

  /**
   * The whole chain with the round names and the replacement table as
   * parameters: the round first, then the table, then the spaced en-dash
   * (line 264) and the first `\s` run (line 265).
   */
  function MatchableWith(title: string, names: seq<string>, rules: seq<Rewrite.Rule>): string
  {
    var t := Rewrite.ApplyAll(DropRound(title, names), rules);
    ReplaceFirstSpaceRun(ReplaceSpacedChar(t, '\U{2013}', " "), " ")
  }

  /** `matchableDecklistTitle`. */
  function MatchableDecklistTitle(title: string): string
  {
    MatchableWith(title, RoundNames, MatchableRules)
  }

  /** `\s` occurs in `s` only as single spaces. */
  predicate SingleSpaced(s: string)
  {
    forall k :: 0 <= k < |s| && IsSpace(s[k]) ==> s[k] == ' ' && (k + 1 == |s| || !IsSpace(s[k + 1]))
  }

  /**
   * A title without a round name, without any pattern of the table, without a
   * spaced en-dash and spaced by single spaces is already matchable.
   */
  lemma MatchableUntouched(title: string, names: seq<string>, rules: seq<Rewrite.Rule>)
    requires forall q, a :: 0 <= q && a in names && q + |a| <= |title| ==> !OccursAtCase(title, a, q, true)
    requires forall k :: 0 <= k < |rules| ==> !Rewrite.Matches(rules[k], title)
    requires forall d :: !SpacedChar(title, '\U{2013}', d)
    requires SingleSpaced(title)
    ensures MatchableWith(title, names, rules) == title
  {
    DropRoundSpec(title, names);
    assert FirstAltFrom(title, names, 0, true).None?;
    Rewrite.ApplyAllUntouched(title, rules);
    assert SpacedCharFrom(title, '\U{2013}', 0).None?;
    SingleSpacedRun(title);
  }

  /** Replacing the first run of `\s` by one space leaves a singly spaced text alone. */
  lemma SingleSpacedRun(title: string)
    requires SingleSpaced(title)
    ensures ReplaceFirstSpaceRun(title, " ") == title
  {
    match FirstSpace(title, 0)
    case None =>
    case Some(i) =>
      assert SpaceRunEnd(title, i) == i + 1 by {
        assert title[i] == ' ';
        if i + 1 < |title| { assert !IsSpace(title[i + 1]); }
      }
      assert title[..i] + " " + title[i + 1..] == title;
  }

  /** The rewrites run in the order listed: rule `k` of the table sees what the round removal and rules before it made. */
  lemma MatchableOrder(title: string, names: seq<string>, rules: seq<Rewrite.Rule>, k: nat)
    requires k < |rules|
    ensures MatchableWith(title, names, rules) ==
      var before := Rewrite.ApplyAll(DropRound(title, names), rules[..k]);
      var t := Rewrite.ApplyAll(Rewrite.Apply(rules[k], before), rules[k + 1..]);
      ReplaceFirstSpaceRun(ReplaceSpacedChar(t, '\U{2013}', " "), " ")
  {
    Rewrite.ApplyAllAt(DropRound(title, names), rules, k);
  }

  // ----- fixSpecificDecklistTitles (lines 270-316) ------------------------------

  /** Line 277: `DS` for a dark archetype, `LS` for any other, a missing side included. */
  function SideAbbr(side: Option<Side>): (abbr: string)
    ensures abbr == "DS" <==> side == Some(Dark)
    ensures abbr == "LS" <==> side != Some(Dark)
  {
    if side == Some(Dark) then "DS" else "LS"
  }

  /** `s.replace(p, r)` inserts `r` in place of the first occurrence of `p`. */
  lemma ReplaceFirstAt(s: string, p: string, r: string)
    ensures IndexOf(s, p) >= 0 ==>
      ReplaceFirst(s, p, r) == s[..IndexOf(s, p)] + r + s[IndexOf(s, p) + |p|..]
      && OccursAt(s, p, IndexOf(s, p)) && forall j :: 0 <= j < IndexOf(s, p) ==> !OccursAt(s, p, j)
    ensures IndexOf(s, p) < 0 ==> ReplaceFirst(s, p, r) == s && forall j :: !OccursAt(s, p, j)
  {
    IndexOfSpec(s, p);
  }

  /**
   * Lines 278-295. `names` is the flattened list of aliases, names and short
   * names of all archetypes, a missing short name standing as `""`. The names
   * are joined into one alternation; when that is empty the pattern is the
   * empty string, whose match has no group 1, and the title's first
   * `undefined` is what gets the side in front of it (a `replace` of
   * `undefined`). Otherwise the text of the leftmost match gets the side in
   * front of its first occurrence.
   */
  function TagArchetype(title: string, abbr: string, names: seq<string>): string
  {
    if Join(names, "|") == "" then ReplaceFirst(title, "undefined", abbr + " undefined")
    else match FirstAltFrom(title, names, 0, false)
      case None => title
      case Some((i, e)) => ReplaceFirst(title, title[i..e], abbr + " " + title[i..e])
  }

  /** The alternation is empty exactly when there are no names or a single empty one. */
  lemma JoinEmpty(names: seq<string>)
    ensures Join(names, "|") == "" <==> names == [] || names == [""]
  {
    if |names| > 1 {
      assert |Join(names, "|")| >= |names[0] + "|"|;
    }
  }

  /**
   * The leftmost match is also the first occurrence of the matched text, so
   * the side and a space are inserted exactly where the archetype name starts.
   */
  lemma TagArchetypeSpec(title: string, abbr: string, names: seq<string>)
    requires Join(names, "|") != ""
    ensures var m := FirstAltFrom(title, names, 0, false);
      m.Some? ==> TagArchetype(title, abbr, names) == title[..m.value.0] + abbr + " " + title[m.value.0..]
    ensures FirstAltFrom(title, names, 0, false).None? ==> TagArchetype(title, abbr, names) == title
  {
    var m := FirstAltFrom(title, names, 0, false);
    if m.Some? {
      TagArchetypeFound(title, abbr, names, m.value.0, m.value.1);
    }
  }

  lemma TagArchetypeFound(title: string, abbr: string, names: seq<string>, i: nat, e: nat)
    requires Join(names, "|") != "" && FirstAltFrom(title, names, 0, false) == Some((i, e))
    ensures TagArchetype(title, abbr, names) == title[..i] + abbr + " " + title[i..]
  {
    var a := title[i..e];
    MatchIsFirstOccurrence(title, names, i, e);
    assert TagArchetype(title, abbr, names) == ReplaceFirst(title, a, abbr + " " + a);
    InsertAtFirst(title, a, abbr, i, e);
  }

  /** Inserting `abbr` and a space before the first occurrence of `title[i..e]`, which is at `i`. */
  lemma InsertAtFirst(title: string, a: string, abbr: string, i: nat, e: nat)
    requires i <= e <= |title| && a == title[i..e] && IndexOf(title, a) == i
    ensures ReplaceFirst(title, a, abbr + " " + a) == title[..i] + abbr + " " + title[i..]
  {
    ReplaceFirstAt(title, a, abbr + " " + a);
    InsertBefore(title, i, e, abbr);
  }

  /** No earlier position holds the text of the leftmost match, since the alternation would have matched there. */
  lemma MatchIsFirstOccurrence(title: string, names: seq<string>, i: nat, e: nat)
    requires FirstAltFrom(title, names, 0, false) == Some((i, e))
    ensures IndexOf(title, title[i..e]) == i
  {
    var b :| b in names && OccursAtCase(title, b, i, false) && e == i + |b|;
    assert title[i..e] == b;
    forall j | 0 <= j < i ensures !OccursAt(title, b, j) {
      if j + |b| <= |title| { NoAltAt(title, names, b, j, false); }
    }
    FirstOccurrence(title, b, i);
  }

  /** An occurrence with none before it is the one `indexOf` finds. */
  lemma FirstOccurrence(s: string, p: string, i: nat)
    requires OccursAt(s, p, i) && forall j :: 0 <= j < i ==> !OccursAt(s, p, j)
    ensures IndexOf(s, p) == i
  {
    IndexOfSpec(s, p);
  }

  lemma InsertBefore(s: string, i: nat, e: nat, x: string)
    requires i <= e <= |s|
    ensures s[..i] + (x + " " + s[i..e]) + s[e..] == s[..i] + x + " " + s[i..]
  {
    assert s[i..] == s[i..e] + s[e..];
  }

  /** `if (t.includes(tag + " " + word)) t = t.replace(...)`: the qualifier goes in after the first such tag. */
  function Qualify(t: string, tag: string, word: string, q: string): string
  {
    ReplaceFirst(t, tag + " " + word, tag + " " + q + " " + word)
  }

  /** Replacing an occurrence of `tag word` by `tag q word` inserts `q` and a space after the tag. */
  lemma InsertAfterTag(s: string, i: nat, tag: string, word: string, q: string)
    requires OccursAt(s, tag + " " + word, i)
    ensures s[..i] + (tag + " " + q + " " + word) + s[i + |tag + " " + word|..]
      == s[..i + |tag| + 1] + q + " " + s[i + |tag| + 1..]
  {
    var p := tag + " " + word;
    var k := i + |tag| + 1;
    var rest := s[i + |p|..];
    assert s[..k] == s[..i] + (tag + " ") by {
      assert s[i..k] == p[..|tag| + 1];
      assert p[..|tag| + 1] == tag + " ";
      assert s[..k] == s[..i] + s[i..k];
    }
    assert s[k..] == word + rest by {
      assert s[k..i + |p|] == p[|tag| + 1..];
      assert p[|tag| + 1..] == word;
      assert s[k..] == s[k..i + |p|] + rest;
    }
    calc {
      s[..k] + q + " " + s[k..];
      s[..i] + (tag + " ") + q + " " + (word + rest);
      s[..i] + (tag + " " + q + " " + word) + rest;
    }
  }

  /** The qualifier and a space are inserted right after the tag of the first occurrence; without one nothing changes. */
  lemma QualifySpec(t: string, tag: string, word: string, q: string)
    ensures var i := IndexOf(t, tag + " " + word);
      i >= 0 ==> Qualify(t, tag, word, q) == t[..i + |tag| + 1] + q + " " + t[i + |tag| + 1..]
    ensures IndexOf(t, tag + " " + word) < 0 ==>
      Qualify(t, tag, word, q) == t && forall j :: !OccursAt(t, tag + " " + word, j)
  {
    var p := tag + " " + word;
    ReplaceFirstAt(t, p, tag + " " + q + " " + word);
    var i := IndexOf(t, p);
    if i >= 0 {
      InsertAfterTag(t, i, tag, word, q);
    }
  }

  /** Lines 298-313: Combat and Senate get the side's word after `DS`/`LS`. */
  function QualifySides(t: string): string
  {
    var t1 := Qualify(t, "DS", "Combat", "Dark");
    var t2 := Qualify(t1, "LS", "Combat", "Light");
    var t3 := Qualify(t2, "DS", "Senate", "Dark");
    Qualify(t3, "LS", "Senate", "Light")
  }

  /** `fixSpecificDecklistTitles(title, side)` with the archetype names given. */
  function FixSpecificDecklistTitles(title: string, side: Option<Side>, names: seq<string>): string
  {
    if title == "2020 Day 1 Wayne Cullen DS ASM" then "2020 MPC Day 1 Wayne Cullen DS ASM"
    else
      var t := if !Contains(title, "DS") && !Contains(title, "LS") then TagArchetype(title, SideAbbr(side), names) else title;
      QualifySides(t)
  }

  /**
   * The side tag is added only to a title that carries neither `DS` nor `LS`;
   * a tagged title only has its Combat and Senate qualified.
   */
  lemma FixSpecificSpec(title: string, side: Option<Side>, names: seq<string>)
    requires title != "2020 Day 1 Wayne Cullen DS ASM"
    ensures Contains(title, "DS") || Contains(title, "LS") ==>
      FixSpecificDecklistTitles(title, side, names) == QualifySides(title)
    ensures !Contains(title, "DS") && !Contains(title, "LS") && Join(names, "|") != "" ==>
      var m := FirstAltFrom(title, names, 0, false);
      FixSpecificDecklistTitles(title, side, names) ==
        QualifySides(if m.Some? then title[..m.value.0] + SideAbbr(side) + " " + title[m.value.0..] else title)
  {
    if Join(names, "|") != "" {
      TagArchetypeSpec(title, SideAbbr(side), names);
    }
  }
}
