/**
 * Naming a decklist's archetype in generateArchetypes.js: the representative
 * species of a deck, `determineArchetypeName` (an objective / starting
 * interrupt / starting location cascade followed by trump overrides) and
 * `mapLongNameToShortName`.
 */
module Naming {
  import opened Str
  import opened Lists
  import opened Cards
  import opened Resolver
  import opened Inference
  import opened Location

  // ----- determineRepSpecies -----------------------------------------------------

  /** The species counted, in the order `reduce` compares them. */
  const RepSpecies: seq<string> := ["Gungan", "Mandalorian", "Wookiee"]

  const RepSpeciesThreshold: nat := 3

  /**
   * A card names `sp` in its lore, its title or its joined extra text; the
   * string patterns of `match` hold no regex syntax, so they are substring tests.
   */
  predicate Mentions(c: Card, sp: string)
  {
    || (c.front.lore.Some? && Contains(c.front.lore.value, sp))
    || Contains(c.front.title, sp)
    || Contains(Join(c.front.extraText, " "), sp)
  }

  function Characters(d: Decklist): seq<Card>
  {
    Filter(d.cards, IsCharacter)
  }

  /** How many of the deck's characters mention `sp` (lines, not quantities). */
  function SpeciesCount(d: Decklist, sp: string): nat
  {
    |Filter(Characters(d), (c: Card) => Mentions(c, sp))|
  }

  /** A character without lore makes `c.front.lore.match` throw. */
  predicate LorelessCharacter(d: Decklist)
  {
    exists k :: 0 <= k < |d.cards| && IsCharacter(d.cards[k]) && d.cards[k].front.lore.None?
  }

  /** The three species' counts, in `RepSpecies` order. */
  function SpeciesCounts(d: Decklist): (r: seq<nat>)
    ensures |r| == |RepSpecies|
    ensures forall k :: 0 <= k < |r| ==> r[k] == SpeciesCount(d, RepSpecies[k])
  {
    seq(|RepSpecies|, (k: int) requires 0 <= k < |RepSpecies| => SpeciesCount(d, RepSpecies[k]))
  }

  /**
   * `determineRepSpecies`: the species mentioned by the most characters (the
   * first of them on a tie), provided at least three characters mention it.
   */
  function DetermineRepSpecies(d: Decklist): (r: Result<Option<string>>)
    ensures r.Failure? <==> LorelessCharacter(d)
    ensures r.Success? && r.value.Some? ==>
      var counts := SpeciesCounts(d);
      exists i :: 0 <= i < |counts| && r.value.value == RepSpecies[i]
        && counts[i] >= RepSpeciesThreshold
        && (forall j :: 0 <= j < |counts| ==> counts[j] <= counts[i])
        && (forall j :: 0 <= j < i ==> counts[j] < counts[i])
    ensures r.Success? && r.value.None? ==>
      var counts := SpeciesCounts(d);
      forall j :: 0 <= j < |counts| ==> counts[j] < RepSpeciesThreshold
  {
    if LorelessCharacter(d) then Failure
    else
      var counts := SpeciesCounts(d);
      var i := FirstMax(counts);
      if counts[i] >= RepSpeciesThreshold then Success(Some(RepSpecies[i])) else Success(None)
  }

  // ----- determineArchetypeName: the cascade -----------------------------------------

  /** `cardTitles.includes(t)`, the cleaned titles of the deck's cards. */
  predicate HasTitle(d: Decklist, t: string)
  {
    exists k :: 0 <= k < |d.cards| && CleanTitleOf(d.cards[k]) == Some(t)
  }

  /** `cleanCardTitle(x?.front.title)` for a possibly-missing card. */
  function CleanTitleOfOpt(c: Option<Card>): Option<string>
  {
    if c.Some? then CleanTitleOf(c.value) else None
  }

  /** A possibly-`null` string in a template literal or after `+`. */
  function Text(s: Option<string>): string
  {
    if s.Some? then s.value else "null"
  }

  /** Systems with both light and dark icons (a missing count compares false). */
  function BattlegroundSystems(d: Decklist): nat
  {
    |Filter(d.cards, (c: Card) =>
      c.front.subType == Some("System")
      && c.front.darkSideIcons.Some? && c.front.darkSideIcons.value > 0
      && c.front.lightSideIcons.Some? && c.front.lightSideIcons.value > 0)|
  }

  function JediTests(d: Decklist): nat
  {
    |Filter(d.cards, (c: Card) => Contains(c.front.typ, "Jedi Test"))|
  }

  /**
   * What the `switch` on the objective's cleaned title appends to it. Agents
   * In The Court always gains " No-Flip" after a species: its filter reads
   * `c.front.subtype`, which no card has, so it never finds the alien it
   * looks for. Only that case asks for the species, which can throw.
   */
  function ObjectiveModifier(d: Decklist, name: string): (r: Result<string>)
    ensures r.Failure? ==> name == "Agents In The Court" && LorelessCharacter(d)
    ensures name == "Hidden Base" ==> r == Success(if BattlegroundSystems(d) < 5 then " No-Flip" else "")
  {
    if name == "Carbon Chamber Testing" then
      Success(if !HasTitle(d, "Boba Fett's Blaster Rifle (V)") then " No-Flip" else "")
    else if name == "Set Your Course For Alderaan" then
      Success(if HasTitle(d, "Commence Primary Ignition") || HasTitle(d, "Commence Primary Ignition (V)")
        then " Flip" else " No-Flip")
    else if name == "Agents In The Court" then
      match DetermineRepSpecies(d)
      case Failure => Failure
      case Success(None) => Success("")
      case Success(Some(sp)) => Success(" " + sp + "s" + " No-Flip")
    else if name == "Hidden Base" then
      Success(if BattlegroundSystems(d) < 5 then " No-Flip" else "")
    else if name == "Mind What You Have Learned" then
      Success(if JediTests(d) < 5 then " No-Flip" else "")
    else if name == "Yavin 4 Base Operations" then
      Success(if HasTitle(d, "Jedi Business") then " Jedi Business" else "")
    else Success("")
  }

  /** `${prefix} <interrupt>`.trim() after the starting location, less its first "(V)". */
  function LocationPrefixed(d: Decklist, interrupt: string): (r: Result<Option<string>>)
    ensures r.Success? ==> r.value.Some?
  {
    var sl := CleanTitleOfOpt(d.startingLocation);
    if d.startingLocation.None? then Success(Some(Trim(" " + interrupt)))
    else if sl.None? then Failure
    else Success(Some(Trim(ReplaceFirst(sl.value, "(V)", "") + " " + interrupt)))
  }

  /** The Let The Wookiee Win (V) name, short form. */
  function WookieeArchetype(find: string -> Option<Card>, d: Decklist): (r: Result<Option<string>>)
    ensures r.Success? ==> r.value.Some?
  {
    if find("Rendezvous Point").Some? then Success(Some("LTWW(V) Space"))
    else match DetermineRepSpecies(d)
      case Failure => Failure
      case Success(sp) =>
        if sp == Some("Wookiee") then Success(Some("LTWW(V) Wookiees"))
        else if d.startingLocation.Some? then Success(Some(Text(CleanTitleOfOpt(d.startingLocation)) + " LTWW(V)"))
        else Success(Some("LTWW(V) Mains"))
  }

  /**
   * The Careful Planning (V) / Combat Readiness (V) name: the starting
   * location's system, without its first " (V)", and the side's interrupt.
   */
  function PlanningArchetype(d: Decklist): (r: Result<Option<string>>)
    ensures r.Success? ==> r.value.Some?
  {
    var location := if d.startingLocation.Some? then CleanTitleOfOpt(d.startingLocation) else Some("");
    if location.None? then Failure
    else
      var system := ReplaceFirst(Split(location.value, ':')[0], " (V)", "");
      Success(Some(system + " " + (if d.side == Some(Dark) then "CR(V)" else "CP(V)")))
  }

  /**
   * The cascade for a deck without an objective, on its starting interrupt
   * and then its starting location. Failure is a throw: `null.split` or
   * `null.replace` on a starting location without a cleaned title, or a
   * loreless character when the species is asked for.
   */
  function InterruptArchetype(find: string -> Option<Card>, d: Decklist): (r: Result<Option<string>>)
    ensures r.Success? ==> r.value.Some?
  {
    var si := CleanTitleOfOpt(d.startingInterrupt);
    var sl := CleanTitleOfOpt(d.startingLocation);
    if d.startingLocation.Some? && d.startingInterrupt.Some?
      && (si == Some("Don't Tread On Me (V)") || si == Some("Surface Defense (V)")) then
      Success(Some(Text(sl) + " 12-Card"))
    else if si == Some("Careful Planning (V)") || si == Some("Combat Readiness (V)") then PlanningArchetype(d)
    else if si == Some("Let The Wookiee Win (V)") then WookieeArchetype(find, d)
    else if si == Some("Slip Sliding Away (V)") then LocationPrefixed(d, "Slip Sliding Away (V)")
    else if si == Some("According To My Design") then LocationPrefixed(d, "According To My Design")
    else if Truthy(sl) then Success(sl)
    else Success(Some("Unknown"))
  }

  /**
   * An objective deck's name: the objective's cleaned title and its
   * modifier, or `None` (an undefined `canonicalName`) for an objective
   * without a cleaned title.
   */
  function ObjectiveArchetype(d: Decklist, title: Option<string>): (r: Result<Option<string>>)
    ensures title.Some? && r.Success? ==>
      r.value.Some? && |title.value| <= |r.value.value| && r.value.value[..|title.value|] == title.value
    ensures title.None? ==> r == Success(None)
  {
    match title
    case None => Success(None)
    case Some(name) =>
      match ObjectiveModifier(d, name)
      case Failure => Failure
      case Success(m) => Success(Some(name + m))
  }

  /** The name before the trumps; `find` is `findCardInDecklist(_, decklist)`. */
  function Cascade(find: string -> Option<Card>, d: Decklist): (r: Result<Option<string>>)
  {
    if d.objective.Some? then ObjectiveArchetype(d, CleanTitleOf(d.objective.value))
    else InterruptArchetype(find, d)
  }

  /** Hidden Base with fewer than five battleground systems is the no-flip deck. */
  lemma HiddenBaseObjective(d: Decklist)
    requires BattlegroundSystems(d) < 5
    ensures ObjectiveArchetype(d, Some("Hidden Base")) == Success(Some("Hidden Base No-Flip"))
  {
    assert ObjectiveModifier(d, "Hidden Base") == Success(" No-Flip");
    assert "Hidden Base" + " No-Flip" == "Hidden Base No-Flip";
  }

  // ----- determineArchetypeName: the trumps -----------------------------------------

  const ForceIsStrong := "The Force Is Strong In My Family"

  /**
   * `chosenSkywalker` after the Skywalker Saga trump: the global is left alone
   * unless the deck has The Force Is Strong In My Family, and then the last
   * of the three Skywalker locations the deck has decides.
   */
  function NextSkywalker(find: string -> Option<Card>, chosen: Option<string>): Option<string>
  {
    if find(ForceIsStrong).None? then chosen
    else LastWins([
      (find("Tatooine: Slave Quarters (V)").Some? || find("Tatooine: Slave Quarters").Some?, Some("Anakin")),
      (find("Endor: Funeral Pyre").Some?, Some("Luke")),
      (find("Ajan Kloss: Training Course").Some?, Some("Rey"))], chosen)
  }

  predicate HasCharacterTitled(d: Decklist, name: string)
  {
    exists k :: 0 <= k < |d.cards| && IsCharacter(d.cards[k]) && Contains(d.cards[k].front.title, name)
  }

  /** The Rise Of The Sith name: the last apprentice among the deck's characters. */
  function SithArchetype(d: Decklist): string
  {
    var apprentice := LastWins([
      (HasCharacterTitled(d, "Maul"), Some("Maul")),
      (HasCharacterTitled(d, "Dooku"), Some("Dooku")),
      (HasCharacterTitled(d, "Tyranus"), Some("Tyranus")),
      (HasCharacterTitled(d, "Vader"), Some("Vader"))], None);
    if apprentice.Some? then Trim(ReplaceFirst("Revenge Of The Sith (" + apprentice.value + ")", "Tyranus", "Dooku"))
    else "Revenge Of The Sith"
  }

  /**
   * TIE starfighters. The source also asks for `!c.front.title.uniqueness`,
   * a property no string has, so that part always holds.
   */
  function TieCount(d: Decklist): nat
  {
    |Filter(d.cards, (c: Card) => c.front.subType.Some? && StartsWith(c.front.subType.value, "Starfighter: TIE"))|
  }

  /** The `k`th overriding rule in source order, as (condition, name). */
  function Trump(find: string -> Option<Card>, d: Decklist, skywalker: Option<string>, k: nat): (bool, Option<string>)
  {
    if k == 0 then (find("Echo Base Operations").Some?, Some("Echo Base Operations"))
    else if k == 1 then (find("Walker Garrison").Some?, Some("Hoth Walkers"))
    else if k == 2 then (find("That Thing's Operational").Some?, Some("That Thing's Operational"))
    else if k == 3 then (find("Emperor's Orders").Some?, Some("Emperor's Orders"))
    else if k == 4 then
      (find("Steady, Steady").Some?
        && (d.startingLocation.None? || d.startingLocation.value.front.title != "Yavin 4: Massassi Throne Room"),
       Some("Naboo Gungans"))
    else if k == 5 then (TieCount(d) >= 6, Some("TIEs"))
    else if k == 6 then (find("Asteroid Sanctuary").Some?, Some("Asteroid Sanctuary"))
    else if k == 7 then (find("Master Kenobi").Some?, Some("Communing (Obi-Wan)"))
    else if k == 8 then (find("Master Yoda").Some?, Some("Communing (Yoda)"))
    else if k == 9 then (find("Master Qui-Gon Jinn, An Old Friend").Some?, Some("Communing (Qui-Gon)"))
    else if k == 10 then (find(ForceIsStrong).Some?, Some("Skywalker Saga (" + Text(skywalker) + ")"))
    else (find("Rise Of The Sith").Some?, Some(SithArchetype(d)))
  }

  const TrumpCount := 12

  function TrumpRules(find: string -> Option<Card>, d: Decklist, skywalker: Option<string>): (r: seq<(bool, Option<string>)>)
    ensures |r| == TrumpCount
  {
    seq(TrumpCount, (k: int) requires 0 <= k => Trump(find, d, skywalker, k))
  }

  /**
   * `canonicalName || "none"` after a run of `if (cond) canonicalName = ...`
   * overrides.
   */
  function Overridden(base: Option<string>, rules: seq<(bool, Option<string>)>): (name: string)
    ensures name != ""
    ensures (forall k :: 0 <= k < |rules| ==> !rules[k].0) ==> name == (if Truthy(base) then base.value else "none")
  {
    var n := LastWins(rules, base);
    if Truthy(n) then n.value else "none"
  }

  /** The last override that fires decides the name. */
  lemma LastOverrideWins(base: Option<string>, rules: seq<(bool, Option<string>)>, k: nat)
    requires k < |rules| && rules[k].0 && Truthy(rules[k].1)
    requires forall j :: k < j < |rules| ==> !rules[j].0
    ensures Overridden(base, rules) == rules[k].1.value
  {
    assert LastWins(rules, base) == rules[k].1;
  }

  /**
   * The trumps over the cascade's outcome `base`, with the `chosenSkywalker`
   * global as `chosen`: the name and the global's new value. Reading the
   * global before anything assigned it is a ReferenceError.
   */
  function Trumped(base: Result<Option<string>>, find: string -> Option<Card>, d: Decklist, chosen: Option<string>): (r: Result<(string, Option<string>)>)
    ensures r.Failure? <==> base.Failure? || (find(ForceIsStrong).Some? && NextSkywalker(find, chosen).None?)
    ensures r.Success? ==> r.value.1 == NextSkywalker(find, chosen)
  {
    match base
    case Failure => Failure
    case Success(name) =>
      var skywalker := NextSkywalker(find, chosen);
      if find(ForceIsStrong).Some? && skywalker.None? then Failure
      else Success((Overridden(name, TrumpRules(find, d, skywalker)), skywalker))
  }

  /**
   * `determineArchetypeName`: the cascade, then the trumps. It throws exactly
   * when the cascade throws or The Force Is Strong finds no Skywalker left,
   * and a name it gives is never empty.
   */
  function ArchetypeName(find: string -> Option<Card>, d: Decklist, chosen: Option<string>): (r: Result<(string, Option<string>)>)
    ensures r.Failure? <==> Cascade(find, d).Failure? || (find(ForceIsStrong).Some? && NextSkywalker(find, chosen).None?)
    ensures r.Success? ==> r.value.0 != ""
  {
    Trumped(Cascade(find, d), find, d, chosen)
  }

  /** Echo Base Operations and Walker Garrison together: "Hoth Walkers", the later trump. */
  lemma HothWalkers(find: string -> Option<Card>, d: Decklist, skywalker: Option<string>, base: Option<string>)
    requires find("Echo Base Operations").Some? && find("Walker Garrison").Some?
    requires forall j :: 2 <= j < TrumpCount ==> !Trump(find, d, skywalker, j).0
    ensures Overridden(base, TrumpRules(find, d, skywalker)) == "Hoth Walkers"
  {
    LastOverrideWins(base, TrumpRules(find, d, skywalker), 1);
  }

  lemma HiddenBaseCascade(find: string -> Option<Card>, d: Decklist)
    requires d.objective.Some? && CleanTitleOf(d.objective.value) == Some("Hidden Base")
    requires BattlegroundSystems(d) < 5
    ensures Cascade(find, d) == Success(Some("Hidden Base No-Flip"))
  {
    HiddenBaseObjective(d);
  }

  /**
   * Without a trump (and so without The Force Is Strong In My Family) the
   * cascade's name stands, a falsy one reading "none", and the global is
   * left alone.
   */
  lemma NoTrump(find: string -> Option<Card>, d: Decklist, chosen: Option<string>, base: Option<string>)
    requires forall j :: 0 <= j < TrumpCount ==> !Trump(find, d, chosen, j).0
    ensures Trumped(Success(base), find, d, chosen) == Success((if Truthy(base) then base.value else "none", chosen))
  {
    assert !Trump(find, d, chosen, 10).0;
    assert NextSkywalker(find, chosen) == chosen;
  }

  /** Hidden Base with fewer than five battleground systems and no trump is the no-flip deck. */
  lemma HiddenBaseNoFlip(find: string -> Option<Card>, d: Decklist, chosen: Option<string>)
    requires d.objective.Some? && CleanTitleOf(d.objective.value) == Some("Hidden Base")
    requires BattlegroundSystems(d) < 5
    requires forall j :: 0 <= j < TrumpCount ==> !Trump(find, d, chosen, j).0
    ensures ArchetypeName(find, d, chosen) == Success(("Hidden Base No-Flip", chosen))
  {
    HiddenBaseCascade(find, d);
    NoTrump(find, d, chosen, Some("Hidden Base No-Flip"));
  }

  // ----- mapLongNameToShortName ---------------------------------------------------------

  /** The replacements made before the lookup, in order (the first occurrence of each). */
  const ShortNamePrepass: seq<(string, string)> := [
    ("Combat Readiness (V)", "CR(V)"),
    ("Careful Planning (V)", "CP(V)"),
    ("Coruscant: Jedi Council Chamber", "JCC"),
    ("Dathomir: Maul's Chambers", "Maul's Chambers"),
    ("Dagobah: Cave", "Dagobah Cave"),
    ("Slip Sliding Away (V)", "SSA(V)"),
    ("Surface Defense (V)", "12-Card"),
    ("Death Star II: Throne Room", "DSII Throne Room"),
    ("According To My Design", "ATMD"),
    ("Endor: Chief Chirpa's Hut", "Chirpa's Hut"),
    ("Endor: Anakin's Funeral Pyre", "Pyre"),
    ("Hoth: Ice Plains (5th Marker)", "Ice Plains"),
    ("Let The Wookiee Win (V)", "LTWW(V)"),
    ("Naboo: Boss Nass' Chambers", "Boss Nass Chambers"),
    ("Podrace Prep", "Podracing"),
    ("Tatooine: Desert Landing Site", "DLS"),
    ("Tatooine: Hutt Trade Route (Desert)", "Hutt Trade Route"),
    ("Tatooine: Slave Quarters", "Slave Quarters"),
    ("Hoth: Defensive Perimeter (3rd Marker)", "3rd Marker"),
    ("Ajan Kloss: Training Course", "Ajan Kloss"),
    ("Coruscant: The Works", "Coruscant"),
    ("Invisible Hand: Bridge", "Invisible Hand"),
    ("Hoth: Main Power Generators (1st Marker)", "Hoth MPG"),
    ("Hoth MPG (V)", "Hoth MPG"),
    ("Home One: War Room", "Home One War Room"),
    ("Tatooine: Slave Quarters", "Slave Quarters"),
    ("Slave Quarters (V)", "Slave Quarters"),
    ("Tatooine: Skywalker Hut", "Skywalker Hut"),
    ("According To My Design", "ATMD"),
    ("Yavin 4: Massassi Throne Room", "TRM")]

  /** The long-name to short-name table. */
  const ShortNames: map<string, string> := map[
    "A Great Tactician Creates Plans" := "Thrawn",
    "A Stunning Move" := "ASM",
    "Agents In The Court" := "AITC",
    "Agents In The Court Mandalorians" := "AITC Mandalorians",
    "Agents In The Court Mandalorians No-Flip" := "AITC Mandalorians",
    "Agents Of Black Sun" := "AOBS",
    "Bring Him Before Me" := "BHBM",
    "Carbon Chamber Testing" := "CCT",
    "Carbon Chamber Testing Flip" := "CCT",
    "Carbon Chamber Testing No-Flip" := "CCT No-Flip",
    "City In The Clouds" := "City In The Clouds",
    "Court Of The Vile Gangster" := "Court",
    "Dantooine Base Operations" := "DBO",
    "Diplomatic Mission To Alderaan" := "Diplo",
    "Don't Tread On Me (V)" := "12-Card",
    "Endor (V)" := "Endor",
    "Endor Operations" := "Endor Ops",
    "He Is The Chosen One" := "HITCO",
    "Hidden Base" := "HB",
    "Hidden Base Flip" := "HB",
    "Hidden Base No-Flip" := "HB No-Flip",
    "Hunt Down And Destroy The Jedi (V)" := "Hunt Down (V)",
    "Hunt Down And Destroy The Jedi" := "Hunt Down",
    "Hunt For The Droid General" := "Clones",
    "I Want That Map" := "Map",
    "ISB Operations" := "ISB",
    "Imperial Entanglements" := "IE",
    "Imperial Occupation" := "DS Operatives",
    "Invasion" := "Invasion",
    "Let Them Make The First Move" := "DS Combat",
    "Local Uprising" := "LS Operatives",
    "Massassi Base Operations" := "MBO",
    "Mind What You Have Learned" := "MWYHL",
    "Mind What You Have Learned Flip" := "MWYHL Flip",
    "Mind What You Have Learned No-Flip" := "MWYHL No-Flip",
    "My Kind Of Scum" := "MKOS",
    "My Lord, Is That Legal?" := "DS Senate",
    "No Money, No Parts, No Deal!" := "Watto",
    "Old Allies" := "OA",
    "On The Verge Of Greatness" := "Verge",
    "Plead My Case To The Senate" := "LS Senate",
    "Quiet Mining Colony" := "QMC",
    "Ralltiir Operations (V)" := "ROps(V)",
    "Ralltiir Operations" := "ROps",
    "Rebel Strike Team" := "RST",
    "Rescue The Princess: (V)" := "RTP (V)",
    "Rescue The Princess" := "RTP",
    "Set Your Course For Alderaan" := "SYCFA",
    "Set Your Course For Alderaan Flip" := "SYCFA Flip",
    "Set Your Course For Alderaan No-Flip" := "SYCFA No-Flip",
    "Shadow Collective" := "SC",
    "The Empire Knows We're Here" := "Hoth Speeders",
    "The Galaxy May Need A Legend" := "Legend",
    "The Hyperdrive Generator's Gone (V)" := "Hyperdrive (V)",
    "The Hyperdrive Generator's Gone" := "Hyperdrive",
    "The Shield Will Be Down In Moments" := "Walkers Objective",
    "There Is Good In Him" := "TIGIH",
    "They Have No Idea We're Coming" := "No Idea",
    "This Deal Is Getting Worse All The Time" := "TDIGWATT",
    "Twin Suns Of Tatooine" := "Twin Suns",
    "Watch Your Step" := "WYS",
    "We Have A Plan" := "WHAP",
    "We'll Handle This" := "LS Combat",
    "Yavin 4 Base Operations" := "Y4O",
    "Yavin 4 Base Operations Jedi Business" := "Y4O Jedi Business",
    "Yavin 4: Massassi Throne Room" := "TRM",
    "You Can Either Profit By This..." := "Profit",
    "Zero Hour" := "Zero Hour",
    "Echo Base Operations" := "EBO",
    "That Thing's Operational" := "TTO",
    "Hoth Walker" := "Walkers",
    "Naboo Gungans" := "Gungans",
    "Communing (Obi-Wan)" := "Obimuning",
    "Communing (Qui-Gon)" := "Quimuning",
    "Communing (Yoda)" := "Yodamuning",
    "Skywalker Saga (Anakin)" := "Anakin Saga",
    "Skywalker Saga (Luke)" := "Luke Saga",
    "Skywalker Saga (Rey)" := "Rey Saga",
    "Revenge Of The Sith (Vader)" := "ROTS Vader",
    "Revenge Of The Sith (Dooku)" := "ROTS Dooku",
    "Revenge Of The Sith (Maul)" := "ROTS Maul",
    "Rise Of The Sith" := "ROTS"]

  /**
   * A short name under a pre-pass and a table: the table's entry for the
   * pre-passed name, or that name itself when the table has none (no value
   * of the table is falsy, so `map[archetype] || archetype` is the lookup).
   */
  function ShortNameUnder(name: string, prepass: seq<(string, string)>, table: map<string, string>): (r: string)
    ensures var pre := ReplaceChain(name, prepass);
      r == pre || (pre in table && r == table[pre])
  {
    var pre := ReplaceChain(name, prepass);
    if pre in table then table[pre] else pre
  }

  /** `mapLongNameToShortName`: a short name of the table, or the name after the pre-pass. */
  function MapLongNameToShortName(name: string): (r: string)
    ensures r == ReplaceChain(name, ShortNamePrepass) || r in ShortNames.Values
  {
    ShortNameUnder(name, ShortNamePrepass, ShortNames)
  }

  /** A name no pre-pass pattern occurs in is looked up as it is. */
  lemma ShortNameUntouched(name: string, prepass: seq<(string, string)>, table: map<string, string>)
    requires forall k :: 0 <= k < |prepass| ==> !Contains(name, prepass[k].0)
    ensures name in table ==> ShortNameUnder(name, prepass, table) == table[name]
    ensures name !in table ==> ShortNameUnder(name, prepass, table) == name
  {
    ReplaceChainAbsent(name, prepass);
  }
}
