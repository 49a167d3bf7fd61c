/**
 * generateDecklistTxt.js: the decklist of one tournament page turned into
 * the plain text every later script reads. The text is a title line, a date
 * line, the URL and a blank line, then the body: one "Nx Card Title" line per
 * card under "\nHEADING" lines.
 */
module DecklistTxt {
  import opened Str
  import opened Lists
  import opened Cards
  import opened Rewrite
  import Resolver

  // ----- the catalog as this script reads it --------------------------------------

  /** `type.replace(/Jedi Test.*\/, "Jedi Test")`: every Jedi Test type is one type. */
  function JediTestType(t: string): string
  {
    ReplaceDotStar(t, ["Jedi Test"], [""], "Jedi Test", false)
  }

  /** `cardTypes`: the distinct types of the dark and light cards, in catalog order. */
  function CardTypes(catalog: seq<Card>): (r: seq<string>)
    ensures NoDuplicates(r)
    ensures forall i :: 0 <= i < |catalog| ==> JediTestType(catalog[i].front.typ) in r
    ensures forall k :: 0 <= k < |r| ==> exists i :: 0 <= i < |catalog| && r[k] == JediTestType(catalog[i].front.typ)
  {
    var types := seq(|catalog|, i requires 0 <= i < |catalog| => JediTestType(catalog[i].front.typ));
    assert forall i :: 0 <= i < |catalog| ==> types[i] == JediTestType(catalog[i].front.typ);
    Dedup(types)
  }

  predicate IsObjective(c: Card) { c.front.typ == "Objective" }

  /**
   * `objectiveTitles`: the distinct titles of the Objective cards, then the
   * title of the blanked Ralltiir Operations.
   */
  function ObjectiveTitles(catalog: seq<Card>): (r: seq<string>)
    ensures |r| >= 1 && r[|r| - 1] == BlankedRalltiirTitle
    ensures forall i :: 0 <= i < |catalog| && IsObjective(catalog[i]) ==> catalog[i].front.title in r
    ensures forall k :: 0 <= k < |r| - 1 ==>
      exists i :: 0 <= i < |catalog| && IsObjective(catalog[i]) && r[k] == catalog[i].front.title
  {
    Dedup(ObjectiveTitleList(catalog)) + [BlankedRalltiirTitle]
  }

  /** The titles of the Objective cards in catalog order, repeats kept. */
  function ObjectiveTitleList(catalog: seq<Card>): (t: seq<string>)
    ensures forall i :: 0 <= i < |catalog| && IsObjective(catalog[i]) ==> catalog[i].front.title in t
    ensures forall x :: x in t ==> exists i :: 0 <= i < |catalog| && IsObjective(catalog[i]) && x == catalog[i].front.title
  {
    if catalog == [] then []
    else
      var tail := ObjectiveTitleList(catalog[1..]);
      assert forall i :: 1 <= i < |catalog| ==> catalog[i] == catalog[1..][i - 1];
      (if IsObjective(catalog[0]) then [catalog[0].front.title] else []) + tail
  }

  /** The headings `normalizeLine` recognises: each card type upper-cased, then "STARTING". */
  function Headings(cardTypes: seq<string>): seq<string>
  {
    seq(|cardTypes|, i requires 0 <= i < |cardTypes| => ToUpper(cardTypes[i])) + ["STARTING"]
  }

  // ----- the rule tables -------------------------------------------------------------

  /** `normalizeHeaders`, after the apostrophes: misspelt section headings. */
  const HeaderFixes: seq<Rule> := [
    First("STARSHPIS", "STARSHIPS"),
    First("STARSHPS", "STARSHIPS"),
    First("STARHIPS", "STARSHIPS"),
    First("STARHSIP", "STARSHIPS"),
    First("STARTSHIPS", "STARSHIPS"),
    First("VECHIVLE", "VEHICLE"),
    First("VECHICLE", "VEHICLE"),
    First("EVEHICLES", "VEHICLES"),
    First("ADMIRALS", "ADMIRAL'S"),
    First("INTERUPTS", "INTERRUPTS"),
    First("INTERTUPTS", "INTERRUPTS"),
    First("EFECTS", "EFFECTS"),
    First("EFFETS", "EFFECTS"),
    First("EFFEECTS", "EFFECTS"),
    First("EFFFECTS", "EFFECTS"),
    First("EFFECTTS", "EFFECTS"),
    First("DEVICESL", "DEVICES")
  ]

  /** The structural fixes that must precede the HTML clean-up and the line split. */
  const BodyFixes: seq<Rule> := [
    First("<p>VEH</p>", ""),
    First("2x Sorry About The Mess &amp; Blaster\nProficiency<br>", "2x Sorry About The Mess &amp; Blaster Proficiency"),
    First("2xControl&amp;SetForStun<br>\n", ""),
    First("1xUhoh!<br>\n", ""),
    First("4-LOM With Concussion Rifle (V)1x Allegiant General Pryde", "4-LOM With Concussion Rifle (V)\n1x Allegiant General Pryde"),
    First("Where's Han? LOCATIONS", "Where's Han?\n\nLOCATIONS"),
    First("Officer Evax Captain Khurgee (V)", "Officer Evax\nCaptain Khurgee (V)"),
    All("Darth (V)ader", "Darth Vader"),
    First("Jakku Spaceport Street", "Jakku\nSpaceport Street"),
    First("WEAPONSMace", "WEAPONS<br>Mace"),
    First("2x. ", "2x ")
  ]

  /** The Objective fixes that must precede the line-level fixes (the "No Deal!" one is `AddDealBang`). */
  const ObjectiveFixes: seq<Rule> := [
    All("Yavin 4 Operations", "Yavin 4 Base Operations"),
    All("Agents of Black Sun Prince", "Agents Of Black Sun"),
    All("Galaxy Needs", "Galaxy May Need"),
    AllCI("We're Gonna Need A New One", "We'll Need A New One")
  ]

  /** `fixSpecificLineLevelTyposAndDataEntryErrors`. */
  const LineFixes: seq<Rule> := [
    First("Turn It Off! Turn It Off (V)", "Turn It Off! Turn It Off! (V)"),
    First("I Can't Shake Him (V)", "I Can't Shake Him! (V)"),
    First("Alert My Star Destroyer (V)", "Alert My Star Destroyer! (V)"),
    First("Down With The Emperor (V)", "Down With The Emperor! (V)"),
    First("Evil Is Everywhere!", "Evil Is Everywhere"),
    End("Run Luke, Run", "Run Luke, Run!"),
    End("Watch Your Back", "Watch Your Back!"),
    End("Double Our Efforts", "Double Our Efforts!"),
    End("Coming Through", "Coming Through!"),
    End("Cease Fire", "Cease Fire!"),
    End("It's A Trap", "It's A Trap!"),
    End("It's A Hit", "It's A Hit!"),
    End("You'll Be Dead", "You'll Be Dead!"),
    First("Lukes Bionic Hand", "Luke's Bionic Hand"),
    First("Beldons Eye", "Beldon's Eye"),
    First("Boss Nass Chambers", "Boss Nass' Chambers"),
    First("Mauls", "Maul's"),
    First("Tarpals Electropole", "Tarpals' Electropole"),
    First("Lars Moisture Farm", "Lars' Moisture Farm")
  ]

  /**
   * `fixSpecificGlobalTyposAndDataEntryErrors`, in source order. The Scarif
   * alternation is three `End` rules: whichever alternative ends the title,
   * its replacement ends in "(Docking Bay)", so the later two cannot fire.
   */
  const GlobalFixes: seq<Rule> := EarlyGlobalFixes + LaterGlobalFixes

  /** The first six global fixes, up to the "Artoo-Deetoo" one. */
  const EarlyGlobalFixes: seq<Rule> := [
    All("w/", "with"),
    First("Sullustian", "Sullustan"),
    First("Rebek", "Rebel"),
    End("BB-8", "BB-8 (Beebee-Ate)"),
    First("Bala-Tak", "Bala-Tik"),
    First("Artoo-Deetoo", "Artoo-Detoo")
  ]

  /** The global fixes after the "Artoo-Deetoo" one. */
  const LaterGlobalFixes: seq<Rule> := [
    First("Uhoh", "Uh-oh"),
    First("Short-Range Fighters &", "Short Range Fighters &"),
    First("Short Range Fighter &", "Short Range Fighters &"),
    End("Short Range Fighters", "Short-range Fighters"),
    First("Coarse, Rough", "Coarse and Rough"),
    Start("Morgan Elsbeth", "Magistrate Morgan Elsbeth"),
    First("SetForStun", "Set for Stun"),
    Whole("Blue 1", "Blue 11"),
    First("3P0", "3PO"),
    First("K-2S0", "K-2SO"),
    First("Tueesso", "Tuesso"),
    End("U-3PO", "U-3PO (Yoo-Threepio)"),
    First("Third Marker", "3rd Marker"),
    First("Presence Of Te Force", "Presence Of The Force"),
    First("Persuit", "Pursuit"),
    First("Tractor Beams", "Tractor Beam"),
    First("Flare S", "Flare-S"),
    First("Padm\U{00E9}", "Padme"),
    First("Agression", "Aggression"),
    First("Anger Fear Aggression", "Anger, Fear, Aggression"),
    First("Knowledge & Defense", "Knowledge And Defense"),
    First("See You Around Kid", "See You Around, Kid"),
    End("5D6-RA-7", "5D6-RA-7 (Fivedesix)"),
    End("5D6-RA-7 (V)", "5D6-RA-7 (Fivedesix) (V)"),
    First("Jedi Council Chambers", "Jedi Council Chamber"),
    First(" with ", " With "),
    End("2-1B", "2-1B (Too-Onebee)"),
    First("I Can Take Care Of Myself", "I Think I Can Handle Myself"),
    First("I'm Getting Kind Of Good At This", "I'm Getting Pretty Good At This"),
    First("Darth Vader Emperors Enforcer", "Darth Vader, Emperor's Enforcer"),
    First("Darth Vader Emperor's Enforcer", "Darth Vader, Emperor's Enforcer"),
    First("Storm Trooper", "Stormtrooper"),
    First("Asssault", "Assault"),
    First("Ghhk and Those", "Ghhhk & Those"),
    First("Search & Destroy", "Search And Destroy"),
    First("Han Chewie, And The Falcon", "Han, Chewie, And The Falcon"),
    First("Ability Ability Ability", "Ability, Ability, Ability"),
    Span(["Qui-Gon's Lightsaber (ref"], ["3)", "iii)"], "Qui-Gon's Lightsaber", true),
    FirstAlt(["Qui-Gon Jinn's Lightsaber (epi)", "Qui-Gon Jinn's Lightsaber (ep1)"], "Qui-Gon Jinn's Lightsaber", true),
    First("'s Saber", "'s Lightsaber"),
    First("ith Saber", "ith Lightsaber"),
    First("Obi Wan", "Obi-Wan"),
    First("Slave 1", "Slave I"),
    First("Councli", "Council"),
    First("Chimera", "Chimaera"),
    First("Chimeara", "Chimaera"),
    First("Desparate", "Desperate"),
    First("Baqy", "Bay"),
    All("Ahch To", "Ahch-To"),
    First("\U{201A}Snap'", "'Snap'"),
    First("Kinta Strider", "Kintan Strider"),
    First("Palapatine", "Palpatine"),
    All("(DB)", "(Docking Bay)"),
    End("Scarif: Landing Pad", "Scarif: Landing Pad Nine (Docking Bay)"),
    End("Scarif: Docking Bay", "Scarif: Landing Pad Nine (Docking Bay)"),
    End("Scarif: Landing Pad Nine", "Scarif: Landing Pad Nine (Docking Bay)"),
    End("Landing Platform", "Landing Platform (Docking Bay)"),
    End("Platform 327", "Platform 327 (Docking Bay)"),
    First("Eza", "Ezra"),
    First("Perimiter", "Perimeter"),
    First("Kurt Drive", "Kuat Drive"),
    First("X-Wing Laser Cannons", "X-wing Laser Cannon"),
    First("Run, Luke, Run", "Run Luke, Run"),
    First("G1", "Gold 1"),
    First("Yavin :", "Yavin 4:"),
    First("Yavin IV", "Yavin 4"),
    First("Yavin 4 Docking Bay", "Yavin 4: Docking Bay"),
    First("Chandrilla", "Chandrila"),
    FirstCI("heading to the medical", "Heading For The Medical"),
    First("With Parts Showing", "With His Parts Showing"),
    Start("Jedha City", "Jedha: Jedha City"),
    First("Peavy", "Peavey"),
    First("Spacebort", "Spaceport"),
    First("Owen & Beru Lars", "Owen Lars & Beru Lars"),
    First("Manuever", "Maneuver"),
    First("All wings & Darklighter Spin", "All Wings Report In & Darklighter Spin"),
    End("FN-2199", "FN-2199 (Nines)"),
    First("Blockade Flagship Bridge", "Blockade Flagship: Bridge"),
    First("Naboo: Hallway", "Naboo: Theed Palace Hallway"),
    EndCI("We're in Attack Position", "We're In Attack Position Now"),
    First("Bith Shuttle", "Bith Shuffle"),
    Start("Bith Shuffle", "The Bith Shuffle"),
    First("Shuffle \U{0107} Desperate", "Shuffle & Desperate"),
    First("Shuffle and Desperate", "Shuffle & Desperate"),
    First("EPP Mara", "Mara Jade With Lightsaber"),
    Whole("Prince", "Prince Xizor"),
    First("I Can Feel The Conflict", "I Feel The Conflict"),
    First("Darth Vader, Lord of The Sith", "Darth Vader, Dark Lord of The Sith"),
    First("Spaceport Office", "Spaceport Prefect's Office"),
    First("IG-8 8", "IG-88"),
    First("Yoda ,", "Yoda,"),
    First("Master OF", "Master Of"),
    First("Kal 'Falnl", "Kal'Falnl"),
    First("Kal Fal'nl", "Kal'Falnl"),
    First("Uchines", "Urchins"),
    First("Calrissian Scoundrel", "Calrissian, Scoundrel"),
    First("Chewie Enraged", "Chewie, Enraged"),
    First("Cahmbers", "Chambers"),
    First("Baby.", "Baby,"),
    FirstCI("Specter of Supreme", "Specter Of The Supreme"),
    First("Ellors", "Ellorrs"),
    First("Fighter's Coming In", "Fighters Coming In"),
    End("Hoth: Defensive Perimeter", "Hoth: Defensive Perimeter (3rd Marker)"),
    First("Hoth: Ice Plains (V)", "Hoth: Ice Plains (5th Marker) (V)"),
    First("Ponda Boba", "Ponda Baba"),
    First("Holotheater", "Holotheatre"),
    End("Interrogation Room", "Interrogation Room (Prison)"),
    First("Sefia", "Sefla"),
    End("Ahsoka Tano With Lightsaber", "Ahsoka Tano With Lightsabers"),
    First("Escape Pod Combo", "Escape Pod & We're Doomed"),
    First("Toryn far (V)", "Toryn Farr (V)"),
    First("Inquistor", "Inquisitor"),
    First("Hit & Run", "Hit And Run"),
    First("Hoth: Docking Bay", "Hoth: Echo Docking Bay"),
    First("Commmander Arden", "Commander Ardan"),
    First("Assaj", "Asajj"),
    End("Cloud City: Upper Plaza", "Cloud City: Upper Plaza Corridor"),
    End("General Leia", "General Leia Organa"),
    First("Nelsoor", "Nesloor"),
    First("Sergeant Misik", "Corporal Misik"),
    First("Shadaa", "Shaddaa"),
    First("Naboo Blaster (V)", "Naboo Blaster"),
    First("Masterful Move and Endor", "Masterful Move & Endor"),
    Spaced("Masterful Move &", "Occupation", "Masterful Move & Endor Occupation", true),
    First("Move & Endor Celebration", "Move & Endor Occupation"),
    First("Director Krennic", "Director Orson Krennic"),
    End("Power Generators (V)", "Power Generators (1st Marker) (V)"),
    End("Hoth: North Ridge", "Hoth: North Ridge (4th Marker)"),
    End("Han With Heavy Blaster", "Han With Heavy Blaster Pistol"),
    First("Vengeace", "Vengeance"),
    First("Boshek", "BoShek"),
    FirstCI("Dash In Rogue 10", "Dash In Rogue 12"),
    First("\"Snap Wexley", "'Snap' Wexley"),
    First("Wedge Antilles In Red Squadron 1", "Wedge In Red Squadron 1"),
    First("Kylo With Lightsaber", "Kylo Ren With Lightsaber"),
    First("Repairs \U{0107} Starship", "Repairs & Starship"),
    First("Death Squadron Assignment (V)", "Death Squadron Assignment"),
    First("A Brave Resistance (V)", "A Brave Resistance"),
    First("Irritating (V)", "Irritating"),
    First("Like Sand (V)", "Like Sand"),
    First("Endor Commando Team (V)", "Endor Commando Team"),
    Whole("Solo (V)", "Solo"),
    First("Rogue One (V)", "Rogue One"),
    First("Scarif: Turbolift Complex (V)", "Scarif: Turbolift Complex"),
    First("General Airen Cracken (V)", "General Airen Cracken"),
    First("Captain Hera Syndulla (V)", "Captain Hera Syndulla"),
    First("Senator Mon Mothma (V)", "Senator Mon Mothma"),
    First("Leia's Resistance Transport (V)", "Leia's Resistance Transport"),
    First("Rebel Trooper Reinforcements (V)", "Rebel Trooper Reinforcements"),
    First("Death Squadron Assignments", "Death Squadron Assignment"),
    All(" in ", " In "),
    All(" and ", " And "),
    All(" of ", " Of "),
    All(" with ", " With "),
    All(" the ", " The "),
    All(" to ", " To "),
    All(" is ", " Is "),
    All(" a ", " A "),
    All(" an ", " An "),
    All(" for ", " For "),
    All(" me ", " Me "),
    All(" at ", " At "),
    All(" the ", " The "),
    All(" be ", " Be "),
    First("Fn-", " FN-"),
    First("thrawn", "Thrawn"),
    First("command", "Command"),
    First("moisture farm", "Moisture Farm"),
    First("Obi-wan", "Obi-Wan"),
    First("damage", "Damage"),
    First("weapon", "Weapon"),
    First("levitation", "Levitation"),
    First("Kal'falnl", "Kal'Falnl"),
    First("Tie Sentry", "TIE Sentry"),
    First("clouds", "Clouds"),
    First("dark lord", "Dark Lord"),
    First("lightsaber", "Lightsaber"),
    First("leave", "Leave"),
    First("learner", "Learner"),
    First("Le-BO2D9", "LE-BO2D9"),
    First("PEace", "Peace"),
    First("Temmin \"Snap\" Wexley", "Temmin 'Snap' Wexley"),
    First("Ardon \"Vapor\" Crell", "Ardon 'Vapor' Crell")
  ]

  /** `disambiguateCardsWithSameTitles`. */
  const Disambiguations: seq<Rule> := [
    Span(["Sense (Pre"], [")"], "Sense", true),
    Span(["Alter (Pre"], [")"], "Alter", true),
    Span(["Control (Dag"], [")"], "Control", true),
    Span(["Tatooine (Pre"], [")"], "Tatooine", true),
    Span(["Coruscant (S"], [")"], "Coruscant", true),
    Span(["Obi-Wan's Lightsaber (Pre"], [")"], "Obi-Wan's Lightsaber", true),
    Span(["Bib Fortuna (J"], [")"], "Bib Fortuna", true),
    Span(["Sense (Ep", "Sense (Cor"], [")"], "Sense (Episode I)", true),
    Span(["Alter (Ep", "Alter (Cor"], [")"], "Alter (Episode I)", true),
    Span(["Control (Ep", "Control (Cor"], [")"], "Control (Episode I)", true),
    Span(["Tatooine (Ep", "Tatooine (Cor"], [")"], "Tatooine (Episode I)", true),
    Span(["Coruscant (Ep", "Coruscant (Cor"], [")"], "Coruscant (Episode I)", true),
    Span(["Obi-Wan's Lightsaber (e", "Obi-Wan's Lightsaber (r"], [")"], "Obi-Wan's Lightsaber (Episode I)", true),
    Span(["Bib Fortuna (e", "Bib Fortuna (r"], [")"], "Bib Fortuna (Episode I)", true),
    First("Boba Fett (SE)", "Boba Fett (Special Edition"),
    First("Boba Fett (CC)", "Boba Fett (Cloud City"),
    First("Alter (V)", "Alter (Premiere) (V)")
  ]

  // ----- normalizeHeaders and the body fixes -------------------------------------------

  /** `[‘’`´]`: the apostrophe look-alikes every script straightens. */
  const Apostrophes: set<char> := {'\U{2018}', '\U{2019}', '`', '\U{00B4}'}

  /** `[“”]`. */
  const DoubleQuotes: set<char> := {'\U{201C}', '\U{201D}'}

  /** `normalizeHeaders(doc)`: trimmed, apostrophes straightened, headings spelt right. */
  function NormalizeHeaders(doc: string): string
  {
    ApplyAll(MapChars(Trim(doc), Apostrophes, '\''), HeaderFixes)
  }

  const NoDeal := "No Money, No Parts, No Deal"

  /** `phrase` occurs at `i` in `s`, in any case. */
  predicate PhraseAt(s: string, phrase: string, i: nat)
  {
    i + |phrase| <= |s| && ToLower(s[i..i + |phrase|]) == ToLower(phrase)
  }

  /**
   * `.replaceAll(/P(\s|$|\/)/gi, "P!$1")` for a phrase `P`: every occurrence
   * of the phrase, in any case, that ends the text or is followed by `\s` or
   * "/" is written as `phrase` with a "!" after it.
   */
  function PhraseBang(s: string, phrase: string): (r: string)
    decreases |s|
  {
    var e := |phrase|;
    if s == [] then []
    else if PhraseAt(s, phrase, 0) then
      if e == |s| then phrase + "!"
      else if IsSpace(s[e]) || s[e] == '/' then phrase + "!" + [s[e]] + PhraseBang(s[e + 1..], phrase)
      else [s[0]] + PhraseBang(s[1..], phrase)
    else [s[0]] + PhraseBang(s[1..], phrase)
  }

  /** The Objective whose "!" the decklists drop. */
  function AddDealBang(s: string): string
  {
    PhraseBang(s, NoDeal)
  }

  // ----- removeHtmlTagsAndEscapes ---------------------------------------------------

  /** The length of a `<br>` or `<br/>` at the front of `s`, or 0. */
  function BreakLen(s: string): (n: nat)
    ensures n <= |s|
  {
    if StartsWith(s, "<br/>") then 5 else if StartsWith(s, "<br>") then 4 else 0
  }

  /** `s` without its leading run of line-break tags. */
  function SkipBreaks(s: string): (r: string)
    ensures |r| <= |s| && BreakLen(r) == 0
    decreases |s|
  {
    var n := BreakLen(s);
    if n == 0 then s else SkipBreaks(s[n..])
  }

  /** `.replaceAll(/(<br\/?>)+/g, "\n")`: each run of line-break tags becomes one "\n". */
  function CollapseBreaks(s: string): string
    decreases |s|
  {
    if s == [] then []
    else if BreakLen(s) > 0 then "\n" + CollapseBreaks(SkipBreaks(s))
    else [s[0]] + CollapseBreaks(s[1..])
  }

  /** The index of the first ">" at or after `i` on the line, if any: the end of a lazy `<.*?>`. */
  function TagClose(s: string, i: nat): (q: Option<nat>)
    requires i <= |s|
    ensures q.Some? ==> i <= q.value < |s| && s[q.value] == '>'
    ensures q.Some? ==> forall k :: i <= k < q.value ==> s[k] != '>' && !IsLineTerminator(s[k])
    ensures q.None? ==> forall k :: i <= k < SegEnd(s, i) ==> s[k] != '>'
    decreases |s| - i
  {
    if i == |s| || IsLineTerminator(s[i]) then None
    else if s[i] == '>' then Some(i)
    else TagClose(s, i + 1)
  }

  /** `.replaceAll(/<.*?>/g, "")`: each "<" up to the first ">" on its line is removed. */
  function StripTags(s: string): (r: string)
    decreases |s|
  {
    if s == [] then []
    else if s[0] == '<' && TagClose(s, 1).Some? then StripTags(s[TagClose(s, 1).value + 1..])
    else [s[0]] + StripTags(s[1..])
  }

  /** The first four replacements: escaped newlines dropped, breaks and paragraph ends made line breaks, tags removed. */
  function MarkupToText(doc: string): string
  {
    var a := ReplaceAll(doc, "\\n", "");
    var b := CollapseBreaks(a);
    var c := ReplaceAll(b, "</p>", "\n\n");
    StripTags(c)
  }

  /** What `removeHtmlTagsAndEscapes` turns into a straight double quote. */
  const QuoteEntities: seq<string> := ["&quot;", "&#8220;", "&#8221;", "\U{201C}", "\U{201D}"]

  /** What it turns into a straight apostrophe. */
  const ApostropheEntities: seq<string> := ["&apos;", "\U{2018}", "\U{2019}", "`", "\U{00B4}"]

  /** The four named entities decoded, `&amp;` first. */
  function DecodeNamed(d: string): string
  {
    var e := ReplaceAll(d, "&amp;", "&");
    var f := ReplaceAll(e, "&nbsp;", " ");
    var g := ReplaceAll(f, "&lt;", "<");
    ReplaceAll(g, "&gt;", ">")
  }

  /** Quote entities and typographic quotes made straight. */
  function DecodeQuotes(h: string): string
  {
    ReplaceAllAlt(ReplaceAllAlt(h, QuoteEntities, "\""), ApostropheEntities, "'")
  }

  /** The replacements that follow the markup pass, in order. */
  function DecodeEntities(d: string): string
  {
    DecodeQuotes(DecodeNamed(d))
  }

  /** `removeHtmlTagsAndEscapes(doc)`. */
  function RemoveHtmlTagsAndEscapes(doc: string): string
  {
    DecodeEntities(MarkupToText(doc))
  }

  // ----- removeEuroStyleText ----------------------------------------------------------

  /** Where the last line of `s` begins. */
  function LastLineStart(s: string): (q: nat)
    ensures q <= |s|
    ensures forall k :: q <= k < |s| ==> !IsLineTerminator(s[k])
    ensures q > 0 ==> IsLineTerminator(s[q - 1])
    decreases |s|
  {
    if s == [] then 0
    else if IsLineTerminator(s[|s| - 1]) then |s|
    else LastLineStart(s[..|s| - 1])
  }

  /**
   * `.replace(/^(\+|x).*W.*\/i, "")`: a first line that starts with "+" or
   * "x" and mentions `word` later on is removed (its line break stays).
   */
  function DropMarkedLine(s: string, word: string): string
  {
    if DotStarAt(s, ["+", "x"], [word], 0, true).Some? then s[SegEnd(s, 0)..] else s
  }

  /** `s` ends in one of `suffixes`, ignoring case. */
  predicate EndsInAnyCI(s: string, suffixes: seq<string>)
  {
    exists k :: 0 <= k < |suffixes| && EndsWith(ToLower(s), ToLower(suffixes[k]))
  }

  /** `.replace(/.*(suffix)$/i, "")`: a last line ending in one of `suffixes` is removed. */
  function DropLastLineEndingIn(s: string, suffixes: seq<string>): string
  {
    if EndsInAnyCI(s, suffixes) then s[..LastLineStart(s)] else s
  }

  /** The end of `\+\d effects?\)?` at `q`, case-insensitively. */
  function PlusEffectCore(s: string, q: nat): (e: Option<nat>)
    requires q <= |s|
    ensures e.Some? ==> q < e.value <= |s|
  {
    if q + 9 <= |s| && s[q] == '+' && IsDigit(s[q + 1]) && ToLower(s[q + 2..q + 9]) == " effect" then
      var e1 := q + 9 + (if q + 9 < |s| && Lower(s[q + 9]) == 's' then 1 else 0);
      Some(e1 + (if e1 < |s| && s[e1] == ')' then 1 else 0))
    else None
  }

  /**
   * A match of `/\s?\(?\+\d effects?\)?/i` at the front of `s`: the optional
   * `\s` and "(" are tried taken first, as the greedy `?` does.
   */
  function PlusEffectAt(s: string): (e: Option<nat>)
    ensures e.Some? ==> 0 < e.value <= |s|
  {
    if |s| >= 2 && IsSpace(s[0]) && s[1] == '(' && PlusEffectCore(s, 2).Some? then PlusEffectCore(s, 2)
    else if |s| >= 1 && IsSpace(s[0]) && PlusEffectCore(s, 1).Some? then PlusEffectCore(s, 1)
    else if |s| >= 1 && s[0] == '(' && PlusEffectCore(s, 1).Some? then PlusEffectCore(s, 1)
    else PlusEffectCore(s, 0)
  }

  /** `.replaceAll(/\s?\(?\+\d effects?\)?/gi, "")`. */
  function RemovePlusEffects(s: string): string
    decreases |s|
  {
    if s == [] then []
    else match PlusEffectAt(s)
      case Some(e) => RemovePlusEffects(s[e..])
      case None => [s[0]] + RemovePlusEffects(s[1..])
  }

  /**
   * `s.match(/^\d?x?\s?O.*C$/)` for the brackets `O` and `C`: each optional
   * part can only be taken, since what follows it cannot match its character.
   */
  predicate Bracketed(s: string, open: char, close: char)
  {
    var i0 := if |s| > 0 && IsDigit(s[0]) then 1 else 0;
    var i1 := i0 + (if |s| > i0 && s[i0] == 'x' then 1 else 0);
    var i2 := i1 + (if |s| > i1 && IsSpace(s[i1]) then 1 else 0);
    i2 + 2 <= |s| && s[i2] == open && s[|s| - 1] == close
    && forall k :: i2 < k < |s| - 1 ==> !IsLineTerminator(s[k])
  }

  /** The span rules of `removeEuroStyleText`, in order. */
  const EuroSpans: seq<Rule> := [
    Span(["("], [" total)"], "", false),
    First("(non virtual is recommended)", ""),
    Span(["("], ["locations)", "location)"], "", true),
    Span(["Anger, Fear, Aggression (V)"], [""], "Anger, Fear, Aggression (V)", false),
    Span(["Knowledge And Defense (V)"], [""], "Knowledge And Defense (V)", false),
    First("Jabba's Prize (V)", "")
  ]

  /** The first six replacements of `removeEuroStyleText`: whole notes about effects, locations, sites, battlegrounds and personas. */
  function DropNoteLines(line: string): string
  {
    var a := DropMarkedLine(line, "effect");
    var b := DropMarkedLine(a, "location");
    var c := match DotStarAt(b, ["+", "x"], ["sites", "site"], 0, true) case Some(e) => b[e..] case None => b;
    var d := DropLastLineEndingIn(c, [" battleground", " battlegrounds"]);
    var e := DropLastLineEndingIn(d, [" battleground site"]);
    DropLastLineEndingIn(e, [" persona"])
  }

  /** The next seven: "+N effect" counts and the span rules. */
  function DropNotes(f: string): string
  {
    ApplyAll(RemovePlusEffects(f), EuroSpans)
  }

  /** The last three: a wholly bracketed line is dropped, and so is an empty "()". */
  function DropBracketed(g: string): string
  {
    var h := if Bracketed(g, '(', ')') then "" else g;
    var i := if Bracketed(h, '[', ']') then "" else h;
    ReplaceAll(i, "()", "")
  }

  /** `removeEuroStyleText(line)`: the counts and notes some players write beside their cards. */
  function RemoveEuroStyleText(line: string): string
  {
    DropBracketed(DropNotes(DropNoteLines(line)))
  }

  // ----- normalizeCardTitle -------------------------------------------------------------

  /** `.replaceAll(/(\w)\//g, "$1 /")`. */
  function SpaceBeforeSlash(s: string): (r: string)
    ensures forall c :: c !in s && c != ' ' ==> c !in r
    decreases |s|
  {
    if |s| < 2 then s
    else if IsWordChar(s[0]) && s[1] == '/' then [s[0], ' ', '/'] + SpaceBeforeSlash(s[2..])
    else [s[0]] + SpaceBeforeSlash(s[1..])
  }

  /** `.replaceAll(/\/(\w)/g, "/ $1")`. */
  function SpaceAfterSlash(s: string): (r: string)
    ensures forall c :: c !in s && c != ' ' ==> c !in r
    decreases |s|
  {
    if |s| < 2 then s
    else if s[0] == '/' && IsWordChar(s[1]) then ['/', ' ', s[1]] + SpaceAfterSlash(s[2..])
    else [s[0]] + SpaceAfterSlash(s[1..])
  }

  /** No two spaces stand side by side. */
  predicate NoDoubleSpace(s: string)
  {
    forall i :: 0 <= i < |s| - 1 ==> !(s[i] == ' ' && s[i + 1] == ' ')
  }

  /** `.replaceAll(/[ ]{2,}/g, " ")`: each run of spaces becomes one space. */
  function CollapseSpaces(s: string): (r: string)
    ensures NoDoubleSpace(r)
    ensures forall c :: c !in s ==> c !in r
    ensures s != [] ==> r != [] && r[0] == s[0]
    decreases |s|
  {
    if |s| < 2 then s
    else if s[0] == ' ' && s[1] == ' ' then CollapseSpaces(s[1..])
    else [s[0]] + CollapseSpaces(s[1..])
  }

  /** The character fixes `normalizeCardTitle` starts with: bullets, "<>", quotes and ellipses. */
  function TitleCharFixes(t: string): string
  {
    var a := RemoveChars(t, {'\U{2022}'});
    var b := ReplaceAll(a, "<>", "");
    var c := MapChars(b, Apostrophes, '\'');
    var d := MapChars(c, DoubleQuotes, '"');
    ReplaceAll(d, "\U{2026}", "...")
  }

  /** The spacing fixes that follow: around "/", " (AI)", and runs of spaces. */
  function TitleSpacing(e: string): string
  {
    var f := SpaceAfterSlash(SpaceBeforeSlash(e));
    var g := ReplaceFirst(f, " (AI)", "");
    var h := ReplaceFirst(g, "/", " / ");
    Trim(CollapseSpaces(h))
  }

  /** What `normalizeCardTitle` does before its typo table. */
  function CleanTitleText(t: string): string
  {
    TitleSpacing(TitleCharFixes(t))
  }

  /** `normalizeCardTitle(t)`. */
  function NormalizeCardTitle(t: string): string
  {
    ApplyAll(CleanTitleText(t), LineFixes)
  }

  // ----- normalizeLine -------------------------------------------------------------------

  predicate DigitsAt(s: string, i: nat, n: nat)
  {
    i + n <= |s| && forall k :: i <= k < i + n ==> IsDigit(s[k])
  }

  /** `/\w+ \d{1,2}, \d{4}/` matches with its space at `p`. */
  predicate DateAt(s: string, p: nat)
  {
    1 <= p < |s| && IsWordChar(s[p - 1]) && s[p] == ' '
    && ((DigitsAt(s, p + 1, 2) && OccursAt(s, ", ", p + 3) && DigitsAt(s, p + 5, 4))
        || (DigitsAt(s, p + 1, 1) && OccursAt(s, ", ", p + 2) && DigitsAt(s, p + 4, 4)))
  }

  /** A line `normalizeLine` drops: blank, a side marker, a "Dark:" style label, a date or a bare number. */
  predicate Superfluous(l: string)
  {
    l == "" || Contains(l, " LS ") || Contains(l, " DS ")
    || l == "Dark:" || l == "Light:" || l == "Deck:"
    || (exists p :: 0 <= p < |l| && DateAt(l, p))
    || (forall k :: 0 <= k < |l| ==> IsDigit(l[k]))
  }

  /**
   * What may follow a heading, upper- or lower-case: `s?:{0,2}(\s\(\d{1,2}\))?`
   * to the end. An optional part can only be taken when its character is there.
   */
  predicate HeadingTail(t: string)
  {
    CountTail(t[MarksLen(t)..])
  }

  /** The length of the `s?:{0,2}` the tail starts with, taken greedily. */
  function MarksLen(t: string): (n: nat)
    ensures n <= |t|
  {
    var a := if |t| > 0 && t[0] == 's' then 1 else 0;
    a + (if |t| > a && t[a] == ':' then (if |t| > a + 1 && t[a + 1] == ':' then 2 else 1) else 0)
  }

  /** `(\s\(\d{1,2}\))?` to the end. */
  predicate CountTail(u: string)
  {
    u == [] || (IsSpace(u[0]) && ((|u| == 4 && u[1] == '(' && IsDigit(u[2]) && u[3] == ')')
                                 || (|u| == 5 && u[1] == '(' && IsDigit(u[2]) && IsDigit(u[3]) && u[4] == ')')))
  }

  /** `line.match(new RegExp(`^${h}s?:{0,2}(\s\(\d{1,2}\))?$`, "i"))`, the heading taken as literal text. */
  predicate IsHeading(l: string, h: string)
  {
    var low := ToLower(l);
    StartsWith(low, ToLower(h)) && HeadingTail(low[|h|..])
  }

  /** The first heading that `l` spells. */
  function HeadingOf(l: string, headings: seq<string>): (r: Option<string>)
  {
    Find(headings, (h: string) => IsHeading(l, h))
  }

  predicate IsX(c: char) { c == 'x' || c == 'X' }

  /** A quantity found in a line: the matched text and its number. */
  datatype QtyMatch = QtyMatch(text: string, qty: nat)

  /** `line.match(/^(\d{1,2})x\s/i)`. */
  function LeadingQty(s: string): Option<QtyMatch>
  {
    if |s| >= 4 && IsDigit(s[0]) && IsDigit(s[1]) && IsX(s[2]) && IsSpace(s[3]) then Some(QtyMatch(s[..4], ParseDigits(s[..2])))
    else if |s| >= 3 && IsDigit(s[0]) && IsX(s[1]) && IsSpace(s[2]) then Some(QtyMatch(s[..3], ParseDigits(s[..1])))
    else None
  }

  /** `line.match(/\sx(\d{1,2})$/i)`. */
  function TrailingQty(s: string): Option<QtyMatch>
  {
    var n := |s|;
    if n >= 4 && IsSpace(s[n - 4]) && IsX(s[n - 3]) && IsDigit(s[n - 2]) && IsDigit(s[n - 1]) then Some(QtyMatch(s[n - 4..], ParseDigits(s[n - 2..])))
    else if n >= 3 && IsSpace(s[n - 3]) && IsX(s[n - 2]) && IsDigit(s[n - 1]) then Some(QtyMatch(s[n - 3..], ParseDigits(s[n - 1..])))
    else None
  }

  /** `line.match(/^x(\d{1,2})\s/i)`. */
  function LeadingXQty(s: string): Option<QtyMatch>
  {
    if |s| >= 4 && IsX(s[0]) && IsDigit(s[1]) && IsDigit(s[2]) && IsSpace(s[3]) then Some(QtyMatch(s[..4], ParseDigits(s[1..3])))
    else if |s| >= 3 && IsX(s[0]) && IsDigit(s[1]) && IsSpace(s[2]) then Some(QtyMatch(s[..3], ParseDigits(s[1..2])))
    else None
  }

  /** `.replace(/^\d{1,2}x?\s/i, "")`. */
  function DropLeadingCount(s: string): string
  {
    if |s| >= 4 && IsDigit(s[0]) && IsDigit(s[1]) && IsX(s[2]) && IsSpace(s[3]) then s[4..]
    else if |s| >= 3 && IsDigit(s[0]) && IsDigit(s[1]) && IsSpace(s[2]) then s[3..]
    else if |s| >= 3 && IsDigit(s[0]) && IsX(s[1]) && IsSpace(s[2]) then s[3..]
    else if |s| >= 2 && IsDigit(s[0]) && IsSpace(s[1]) then s[2..]
    else s
  }

  /** `.replace(/ x\d{1,2}$/i, "")`. */
  function DropTrailingCount(s: string): string
  {
    var n := |s|;
    if n >= 4 && s[n - 4] == ' ' && IsX(s[n - 3]) && IsDigit(s[n - 2]) && IsDigit(s[n - 1]) then s[..n - 4]
    else if n >= 3 && s[n - 3] == ' ' && IsX(s[n - 2]) && IsDigit(s[n - 1]) then s[..n - 3]
    else s
  }

  /** `.replace(/^x\d{1,2}\s/i, "")`. */
  function DropLeadingXCount(s: string): string
  {
    if |s| >= 4 && IsX(s[0]) && IsDigit(s[1]) && IsDigit(s[2]) && IsSpace(s[3]) then s[4..]
    else if |s| >= 3 && IsX(s[0]) && IsDigit(s[1]) && IsSpace(s[2]) then s[3..]
    else s
  }

  /** `qtyMatch`: the first of the three quantity patterns that matches. */
  function QtyOf(l: string): Option<QtyMatch>
  {
    if LeadingQty(l).Some? then LeadingQty(l) else if TrailingQty(l).Some? then TrailingQty(l) else LeadingXQty(l)
  }

  /** The first `cardTitle` of `normalizeLine`: the line without its count marks. */
  function CountlessTitle(l: string): string
  {
    DropLeadingXCount(DropTrailingCount(DropLeadingCount(l)))
  }

  /** The quantity and the card title of a line: `qty` and `cardTitle` once the quantity is read. */
  function ParseQty(l: string): (nat, string)
  {
    match QtyOf(l)
    case Some(QtyMatch(text, n)) => (n, Trim(ReplaceFirst(l, text, "")))
    case None => (1, CountlessTitle(l))
  }

  /** `.replaceAll(/\(+V\)+$/gi, "(V)")`: the run of "(" and of ")" around a final "V" becomes one each. */
  function OneVirtualMark(s: string): string
  {
    var close := TrailingRun(s, ')');
    var t := s[..|s| - close];
    if close > 0 && t != [] && (t[|t| - 1] == 'V' || t[|t| - 1] == 'v') then
      var u := t[..|t| - 1];
      var open := TrailingRun(u, '(');
      if open > 0 then u[..|u| - open] + "(V)" else s
    else s
  }

  /** How many copies of `c` end `s`. */
  function TrailingRun(s: string, c: char): (n: nat)
    ensures n <= |s|
    ensures forall k :: |s| - n <= k < |s| ==> s[k] == c
    ensures n < |s| ==> s[|s| - n - 1] != c
    decreases |s|
  {
    if s != [] && s[|s| - 1] == c then TrailingRun(s[..|s| - 1], c) + 1 else 0
  }

  /** `.replaceAll(/(\w+)\(V\)/g, "$1 (V)")`: a "(V)" glued to a word gets its space. */
  function SpaceBeforeVirtual(s: string): string
    decreases |s|
  {
    if s == [] then []
    else if |s| >= 4 && IsWordChar(s[0]) && s[1..4] == "(V)" then [s[0]] + " (V)" + SpaceBeforeVirtual(s[4..])
    else [s[0]] + SpaceBeforeVirtual(s[1..])
  }

  /** The fixes `normalizeLine` applies to a card title before it looks for an Objective. */
  function PreObjectiveFixes(t: string): string
  {
    var a := Resolver.CollapseVirtualBack(t);
    var b := ReplaceEnd(a, "(V", "(V)");
    var c := ReplaceEndCI(b, " v", " (V)");
    ApplyAll(SpaceBeforeVirtual(OneVirtualMark(c)), GlobalFixes)
  }

  /**
   * The sixth global fix spells "Artoo-Deetoo" as "Artoo-Detoo". The five
   * before it need a `/`, an `S`, an `R` or a `B`, so a title without those
   * reaches it unchanged, and the rest of the table sees the corrected title.
   */
  lemma GlobalFixesArtoo(t: string)
    requires '/' !in t && 'S' !in t && 'R' !in t && 'B' !in t
    ensures ApplyAll(t, GlobalFixes) == ApplyAll(ReplaceFirst(t, "Artoo-Deetoo", "Artoo-Detoo"), LaterGlobalFixes)
  {
    EarlyGlobalFixesArtoo(t);
    ApplyAllConcat(t, EarlyGlobalFixes, LaterGlobalFixes);
  }

  lemma EarlyGlobalFixesArtoo(t: string)
    requires '/' !in t && 'S' !in t && 'R' !in t && 'B' !in t
    ensures ApplyAll(t, EarlyGlobalFixes) == ReplaceFirst(t, "Artoo-Deetoo", "Artoo-Detoo")
  {
    var e := EarlyGlobalFixes;
    forall k | 0 <= k < 5 ensures !Matches(e[..5][k], t) {
      GlobalFixBeforeArtoo(t, k);
    }
    ApplyAllUntouched(t, e[..5]);
    ApplyAllAt(t, e, 5);
    assert e[6..] == [];
  }

  lemma GlobalFixBeforeArtoo(t: string, k: nat)
    requires '/' !in t && 'S' !in t && 'R' !in t && 'B' !in t && k < 5
    ensures !Matches(EarlyGlobalFixes[k], t)
  {
    if k == 0 {
      AbsentCharIndexOf(t, "w/", '/');
    } else if k == 1 {
      AbsentCharIndexOf(t, "Sullustian", 'S');
    } else if k == 2 {
      AbsentCharIndexOf(t, "Rebek", 'R');
    } else if k == 3 {
      AbsentCharEnd(t, "BB-8", 'B');
    } else {
      AbsentCharIndexOf(t, "Bala-Tak", 'B');
    }
  }

  /** A text without one of the characters of `p` does not end in `p`. */
  lemma AbsentCharEnd(s: string, p: string, c: char)
    requires c in p && c !in s
    ensures !EndsWith(s, p)
  {
    EndsWithIff(s, p);
    if |p| <= |s| {
      var i :| 0 <= i < |p| && p[i] == c;
      assert s[|s| - |p|..|s|][i] == s[|s| - |p| + i];
    }
  }

  /**
   * An Objective title that the card title `ct` of line `l` abbreviates;
   * `cardTitle` is the title normaliser (`normalizeCardTitle`).
   */
  predicate AbbreviatesObjective(ot: string, l: string, ct: string, cardTitle: string -> string)
  {
    Contains(ot, "(V)") == Contains(l, "(V)")
    && |Split(ReplaceFirst(ct, "(V)", ""), ' ')| > 1
    && StartsWith(ToLower(ReplaceAll(cardTitle(ot), " (V)", "")),
                  ToLower(ReplaceAll(cardTitle(ct + " / "), " (V)", "")))
  }

  /** `foundObjectiveTitle`. */
  function FoundObjective(objectiveTitles: seq<string>, l: string, ct: string, cardTitle: string -> string): Option<string>
  {
    Find(objectiveTitles, (ot: string) => AbbreviatesObjective(ot, l, ct, cardTitle))
  }

  /**
   * `normalizeLine`, from the line with its euro-style text removed and
   * trimmed. The two title clean-ups it calls are parameters: `fixTitle`
   * runs before the Objective search (`PreObjectiveFixes`), `cardTitle` is
   * `normalizeCardTitle`.
   */
  function NormalizeText(l: string, headings: seq<string>, objectiveTitles: seq<string>,
                         fixTitle: string -> string, cardTitle: string -> string): string
  {
    if Superfluous(l) then ""
    else match HeadingOf(l, headings)
    case Some(h) => "\n" + (if h == "STARTING" then "STARTING" else h + "S")
    case None =>
      var (qty, title) := ParseQty(l);
      var ct := fixTitle(title);
      match FoundObjective(objectiveTitles, l, ct, cardTitle)
      case Some(ot) => "1x " + ReplaceAll(ot, " (V)", "") + (if Contains(l, "(V)") then " (V)" else "")
      case None => if Trim(l) == "" then "" else NatToString(qty) + "x " + cardTitle(ct)
  }

  /** `normalizeLine(line)`. */
  function NormalizeLine(line: string, headings: seq<string>, objectiveTitles: seq<string>): string
  {
    NormalizeText(Trim(RemoveEuroStyleText(line)), headings, objectiveTitles, PreObjectiveFixes, NormalizeCardTitle)
  }

  // ----- plaintextFromRawContent ---------------------------------------------------------

  function NormalizeLines(lines: seq<string>, headings: seq<string>, objectiveTitles: seq<string>): seq<string>
  {
    Map(lines, (line: string) => NormalizeLine(line, headings, objectiveTitles))
  }

  /** No three "\n" in a row. */
  predicate NoTripleNewline(s: string)
  {
    forall i :: 0 <= i < |s| - 2 ==> !(s[i] == '\n' && s[i + 1] == '\n' && s[i + 2] == '\n')
  }

  /** `.replaceAll(/\n{3,}/g, "\n\n")`: longer runs of "\n" are cut to two. */
  function CapNewlines(s: string): (r: string)
    ensures NoTripleNewline(r)
    ensures s != [] ==> r != [] && r[0] == s[0]
    ensures |r| >= 2 && r[0] == '\n' && r[1] == '\n' ==> |s| >= 2 && s[0] == '\n' && s[1] == '\n'
    decreases |s|
  {
    if |s| >= 3 && s[0] == '\n' && s[1] == '\n' && s[2] == '\n' then CapNewlines(s[1..])
    else if s == [] then [] else [s[0]] + CapNewlines(s[1..])
  }

  /** The body of the plain text before `disambiguateCardsWithSameTitles`. */
  function PlainBody(doc: string, headings: seq<string>, objectiveTitles: seq<string>): string
  {
    SingleSpaced(NormalizedLines(doc, headings, objectiveTitles))
  }

  /**
   * `.replaceAll("\n\n", "\n")` and then the cap on runs of "\n": the body
   * never has three "\n" in a row.
   */
  function SingleSpaced(c: string): (r: string)
    ensures NoTripleNewline(r)
  {
    CapNewlines(ReplaceAll(c, "\n\n", "\n"))
  }

  /** The document cleaned up to its normalized lines, joined by "\n". */
  function NormalizedLines(doc: string, headings: seq<string>, objectiveTitles: seq<string>): string
  {
    var a := ApplyAll(NormalizeHeaders(doc), BodyFixes);
    var b := AddDealBang(ApplyAll(a, ObjectiveFixes));
    var lines := Split(RemoveHtmlTagsAndEscapes(b), '\n');
    Join(NormalizeLines(lines, headings, objectiveTitles), "\n")
  }

  /** `${date}` where a missing date is `null`. */
  function DateText(date: Option<string>): string
  {
    match date case Some(d) => d case None => "null"
  }

  /** The plain text: its four header lines, then the body and a final "\n". */
  function Assemble(title: string, date: Option<string>, url: string, body: string): string
  {
    title + "\n" + DateText(date) + "\n" + url + "\n\n" + body + "\n"
  }

  /** `plaintextFromRawContent(title, date, url, doc)`. */
  function PlaintextFromRawContent(title: string, date: Option<string>, url: string, doc: string,
                                   headings: seq<string>, objectiveTitles: seq<string>): string
  {
    Assemble(title, date, url, ApplyAll(PlainBody(doc, headings, objectiveTitles), Disambiguations))
  }

  // ----- what normalizeCardTitle and plaintextFromRawContent promise --------------------

  /** The characters `normalizeCardTitle` cleans away before its typo table. */
  const CleanedAway: set<char> := {'\U{2022}', '\U{2018}', '\U{2019}', '`', '\U{00B4}', '\U{201C}', '\U{201D}', '\U{2026}'}

  lemma NoDoubleSpaceSlice(s: string, i: nat, j: nat)
    requires i <= j <= |s| && NoDoubleSpace(s)
    ensures NoDoubleSpace(s[i..j])
  {
    assert forall k :: 0 <= k < j - i ==> s[i..j][k] == s[i + k];
  }

  /** The character fixes leave no bullet, curly quote, backtick, acute accent or ellipsis character. */
  lemma TitleCharFixesDrop(t: string, ch: char)
    requires ch in CleanedAway
    ensures ch !in TitleCharFixes(t)
  {
    var a := RemoveChars(t, {'\U{2022}'});
    var b := ReplaceAll(a, "<>", "");
    var c := MapChars(b, Apostrophes, '\'');
    var d := MapChars(c, DoubleQuotes, '"');
    if ch == '\U{2026}' {
      ReplaceAllRemovesChar(d, ch, "...");
    } else {
      if ch == '\U{2022}' {
        ReplaceAllChars(a, "<>", "", ch);
        MapCharsKeepsOut(b, Apostrophes, '\'', ch);
        MapCharsKeepsOut(c, DoubleQuotes, '"', ch);
      } else if ch in Apostrophes {
        MapCharsRemoves(b, Apostrophes, '\'', ch);
        MapCharsKeepsOut(c, DoubleQuotes, '"', ch);
      } else {
        MapCharsRemoves(c, DoubleQuotes, '"', ch);
      }
      ReplaceAllChars(d, "\U{2026}", "...", ch);
    }
  }

  /** The spacing fixes bring in nothing but spaces and "/". */
  lemma TitleSpacingKeepsOut(e: string, ch: char)
    requires ch !in e && ch != ' ' && ch != '/'
    ensures ch !in TitleSpacing(e)
  {
    var f := SpaceAfterSlash(SpaceBeforeSlash(e));
    var g := ReplaceFirst(f, " (AI)", "");
    var h := ReplaceFirst(g, "/", " / ");
    ReplaceFirstChars(f, " (AI)", "", ch);
    ReplaceFirstChars(g, "/", " / ", ch);
    TrimChars(CollapseSpaces(h), ch);
  }

  /** The cleaned title holds none of the characters `normalizeCardTitle` cleans away. */
  lemma CleanTitleTextDrops(t: string, ch: char)
    requires ch in CleanedAway
    ensures ch !in CleanTitleText(t)
  {
    TitleCharFixesDrop(t, ch);
    TitleSpacingKeepsOut(TitleCharFixes(t), ch);
  }

  /** The cleaned title has no two spaces side by side and no `\s` at either end. */
  lemma TitleSpacingClean(e: string)
    ensures var r := TitleSpacing(e);
      && NoDoubleSpace(r)
      && (r == [] || (!IsSpace(r[0]) && !IsSpace(r[|r| - 1])))
  {
    var j := CollapseSpaces(ReplaceFirst(ReplaceFirst(SpaceAfterSlash(SpaceBeforeSlash(e)), " (AI)", ""), "/", " / "));
    var t0 := TrimStart(j);
    NoDoubleSpaceSlice(j, |j| - |t0|, |j|);
    NoDoubleSpaceSlice(t0, 0, |TrimEnd(t0)|);
  }

  /** Two strings without doubled spaces join without one unless a space meets a space. */
  lemma NoDoubleSpaceConcat(x: string, y: string)
    requires NoDoubleSpace(x) && NoDoubleSpace(y)
    requires x == [] || y == [] || x[|x| - 1] != ' ' || y[0] != ' '
    ensures NoDoubleSpace(x + y)
  {
    forall i | 0 <= i < |x + y| - 1
      ensures !((x + y)[i] == ' ' && (x + y)[i + 1] == ' ')
    {
      if i + 1 < |x| {
        assert (x + y)[i] == x[i] && (x + y)[i + 1] == x[i + 1];
      } else if i >= |x| {
        assert (x + y)[i] == y[i - |x|] && (x + y)[i + 1] == y[i + 1 - |x|];
      }
    }
  }

  /**
   * Text a typo-table rule may put into a title: non-empty, printable ASCII
   * other than the backtick, and every space stands between two characters
   * and before one that is not a space.
   */
  predicate TidyText(r: string)
  {
    && r != []
    && (forall i {:trigger r[i]} :: 0 <= i < |r| ==>
          ('!' <= r[i] <= '~' && r[i] != '`') || (r[i] == ' ' && 0 < i < |r| - 1 && r[i + 1] != ' '))
  }

  /** Tidy text has no `\s` at either end, no two spaces side by side and none of the cleaned-away characters. */
  lemma TidyTextSpec(r: string, ch: char)
    requires TidyText(r)
    ensures Trimmed(r) && NoDoubleSpace(r)
    ensures ch in CleanedAway ==> ch !in r
  {
    assert '!' <= r[0] <= '~';
    assert '!' <= r[|r| - 1] <= '~';
  }

  /**
   * A typo-table rule that keeps a title tidy: it replaces a plain literal,
   * the first one or the one at the end, by tidy text.
   */
  predicate TidyFix(rule: Rule)
  {
    && (rule.First? || rule.End?)
    && rule.p != []
    && TidyText(rule.r)
  }

  /** Tidy text spliced into a tidy title leaves it tidy. */
  lemma TidySplice(s: string, i: nat, j: nat, r: string)
    requires i <= j <= |s| && Trimmed(s) && NoDoubleSpace(s)
    requires r != [] && Trimmed(r) && NoDoubleSpace(r)
    ensures Trimmed(s[..i] + r + s[j..]) && NoDoubleSpace(s[..i] + r + s[j..])
  {
    var u := s[..i] + r + s[j..];
    assert u[0] == if i == 0 then r[0] else s[0];
    assert u[|u| - 1] == if j == |s| then r[|r| - 1] else s[|s| - 1];
    NoDoubleSpaceSlice(s, 0, i);
    NoDoubleSpaceSlice(s, j, |s|);
    assert s[..i] == s[0..i] && s[j..] == s[j..|s|];
    NoDoubleSpaceConcat(s[..i], r);
    assert (s[..i] + r)[|s[..i] + r| - 1] == r[|r| - 1];
    NoDoubleSpaceConcat(s[..i] + r, s[j..]);
  }

  lemma TidyFirstKeeps(s: string, p: string, r: string)
    requires r != [] && Trimmed(r) && NoDoubleSpace(r) && Trimmed(s) && NoDoubleSpace(s)
    ensures NoDoubleSpace(ReplaceFirst(s, p, r))
  {
    var i := IndexOf(s, p);
    if i >= 0 { TidySplice(s, i, i + |p|, r); }
  }

  lemma TidyEndKeeps(s: string, p: string, r: string)
    requires r != [] && Trimmed(r) && NoDoubleSpace(r) && Trimmed(s) && NoDoubleSpace(s)
    ensures Trimmed(ReplaceEnd(s, p, r)) && NoDoubleSpace(ReplaceEnd(s, p, r))
  {
    if EndsWith(s, p) {
      TidySplice(s, |s| - |p|, |s|, r);
      assert s[..|s| - |p|] + r + s[|s|..] == s[..|s| - |p|] + r;
    }
  }

  /** One tidy rule keeps a tidy title tidy and lets no cleaned-away character back in. */
  lemma TidyFixKeeps(rule: Rule, s: string, ch: char)
    requires TidyFix(rule) && Trimmed(s) && NoDoubleSpace(s)
    ensures Trimmed(Apply(rule, s)) && NoDoubleSpace(Apply(rule, s))
    ensures ch in CleanedAway && ch !in s ==> ch !in Apply(rule, s)
  {
    TidyTextSpec(rule.r, ch);
    if ch in CleanedAway && ch !in s {
      RuleKeepsOut(rule, s, ch);
    }
    if rule.First? {
      ReplaceFirstTrimmed(s, rule.p, rule.r);
      TidyFirstKeeps(s, rule.p, rule.r);
    } else {
      TidyEndKeeps(s, rule.p, rule.r);
    }
  }

  /** A table of tidy rules keeps a tidy title tidy and lets no cleaned-away character back in. */
  lemma {:induction false} TidyFixesKeep(s: string, rules: seq<Rule>, ch: char)
    requires forall k :: 0 <= k < |rules| ==> TidyFix(rules[k])
    requires Trimmed(s) && NoDoubleSpace(s)
    ensures Trimmed(ApplyAll(s, rules)) && NoDoubleSpace(ApplyAll(s, rules))
    ensures ch in CleanedAway && ch !in s ==> ch !in ApplyAll(s, rules)
    decreases |rules|
  {
    if rules != [] {
      var init := rules[..|rules| - 1];
      TidyFixesKeep(s, init, ch);
      TidyFixKeeps(rules[|rules| - 1], ApplyAll(s, init), ch);
    }
  }

  // Each rule of the typo table is tidy, one literal per lemma so that the
  // solver checks each on its own.

  lemma LineFix0Tidy() ensures TidyFix(First("Turn It Off! Turn It Off (V)", "Turn It Off! Turn It Off! (V)")) { }
  lemma LineFix1Tidy() ensures TidyFix(First("I Can't Shake Him (V)", "I Can't Shake Him! (V)")) { }
  lemma LineFix2Tidy() ensures TidyFix(First("Alert My Star Destroyer (V)", "Alert My Star Destroyer! (V)")) { }
  lemma LineFix3Tidy() ensures TidyFix(First("Down With The Emperor (V)", "Down With The Emperor! (V)")) { }
  lemma LineFix4Tidy() ensures TidyFix(First("Evil Is Everywhere!", "Evil Is Everywhere")) { }
  lemma LineFix5Tidy() ensures TidyFix(End("Run Luke, Run", "Run Luke, Run!")) { }
  lemma LineFix6Tidy() ensures TidyFix(End("Watch Your Back", "Watch Your Back!")) { }
  lemma LineFix7Tidy() ensures TidyFix(End("Double Our Efforts", "Double Our Efforts!")) { }
  lemma LineFix8Tidy() ensures TidyFix(End("Coming Through", "Coming Through!")) { }
  lemma LineFix9Tidy() ensures TidyFix(End("Cease Fire", "Cease Fire!")) { }
  lemma LineFix10Tidy() ensures TidyFix(End("It's A Trap", "It's A Trap!")) { }
  lemma LineFix11Tidy() ensures TidyFix(End("It's A Hit", "It's A Hit!")) { }
  lemma LineFix12Tidy() ensures TidyFix(End("You'll Be Dead", "You'll Be Dead!")) { }
  lemma LineFix13Tidy() ensures TidyFix(First("Lukes Bionic Hand", "Luke's Bionic Hand")) { }
  lemma LineFix14Tidy() ensures TidyFix(First("Beldons Eye", "Beldon's Eye")) { }
  lemma LineFix15Tidy() ensures TidyFix(First("Boss Nass Chambers", "Boss Nass' Chambers")) { }
  lemma LineFix16Tidy() ensures TidyFix(First("Mauls", "Maul's")) { }
  lemma LineFix17Tidy() ensures TidyFix(First("Tarpals Electropole", "Tarpals' Electropole")) { }
  lemma LineFix18Tidy() ensures TidyFix(First("Lars Moisture Farm", "Lars' Moisture Farm")) { }

  lemma LineFixesTidyA(k: nat)
    requires k < 5
    ensures TidyFix(LineFixes[k])
  {
    if k == 0 {
      LineFix0Tidy();
      assert LineFixes[0] == First("Turn It Off! Turn It Off (V)", "Turn It Off! Turn It Off! (V)");
    } else if k == 1 {
      LineFix1Tidy();
      assert LineFixes[1] == First("I Can't Shake Him (V)", "I Can't Shake Him! (V)");
    } else if k == 2 {
      LineFix2Tidy();
      assert LineFixes[2] == First("Alert My Star Destroyer (V)", "Alert My Star Destroyer! (V)");
    } else if k == 3 {
      LineFix3Tidy();
      assert LineFixes[3] == First("Down With The Emperor (V)", "Down With The Emperor! (V)");
    } else {
      LineFix4Tidy();
      assert LineFixes[4] == First("Evil Is Everywhere!", "Evil Is Everywhere");
    }
  }

  lemma LineFixesTidyB(k: nat)
    requires 5 <= k < 10
    ensures TidyFix(LineFixes[k])
  {
    if k == 5 {
      LineFix5Tidy();
      assert LineFixes[5] == End("Run Luke, Run", "Run Luke, Run!");
    } else if k == 6 {
      LineFix6Tidy();
      assert LineFixes[6] == End("Watch Your Back", "Watch Your Back!");
    } else if k == 7 {
      LineFix7Tidy();
      assert LineFixes[7] == End("Double Our Efforts", "Double Our Efforts!");
    } else if k == 8 {
      LineFix8Tidy();
      assert LineFixes[8] == End("Coming Through", "Coming Through!");
    } else {
      LineFix9Tidy();
      assert LineFixes[9] == End("Cease Fire", "Cease Fire!");
    }
  }

  lemma LineFixesTidyC(k: nat)
    requires 10 <= k < 15
    ensures TidyFix(LineFixes[k])
  {
    if k == 10 {
      LineFix10Tidy();
      assert LineFixes[10] == End("It's A Trap", "It's A Trap!");
    } else if k == 11 {
      LineFix11Tidy();
      assert LineFixes[11] == End("It's A Hit", "It's A Hit!");
    } else if k == 12 {
      LineFix12Tidy();
      assert LineFixes[12] == End("You'll Be Dead", "You'll Be Dead!");
    } else if k == 13 {
      LineFix13Tidy();
      assert LineFixes[13] == First("Lukes Bionic Hand", "Luke's Bionic Hand");
    } else {
      LineFix14Tidy();
      assert LineFixes[14] == First("Beldons Eye", "Beldon's Eye");
    }
  }

  lemma LineFixesTidyD(k: nat)
    requires 15 <= k < |LineFixes|
    ensures TidyFix(LineFixes[k])
  {
    if k == 15 {
      LineFix15Tidy();
      assert LineFixes[15] == First("Boss Nass Chambers", "Boss Nass' Chambers");
    } else if k == 16 {
      LineFix16Tidy();
      assert LineFixes[16] == First("Mauls", "Maul's");
    } else if k == 17 {
      LineFix17Tidy();
      assert LineFixes[17] == First("Tarpals Electropole", "Tarpals' Electropole");
    } else {
      LineFix18Tidy();
      assert LineFixes[18] == First("Lars Moisture Farm", "Lars' Moisture Farm");
    }
  }

  /** Every rule of the typo table is tidy. */
  lemma LineFixesTidy()
    ensures forall k :: 0 <= k < |LineFixes| ==> TidyFix(LineFixes[k])
  {
    forall k | 0 <= k < |LineFixes| ensures TidyFix(LineFixes[k]) {
      if k < 5 { LineFixesTidyA(k); }
      else if k < 10 { LineFixesTidyB(k); }
      else if k < 15 { LineFixesTidyC(k); }
      else { LineFixesTidyD(k); }
    }
  }

  /**
   * `normalizeCardTitle` returns a title with no two spaces side by side, no
   * `\s` at either end and none of the bullets, curly quotes, backticks, acute
   * accents or ellipsis characters it cleans away.
   */
  lemma NormalizeCardTitleClean(t: string, ch: char)
    ensures var r := NormalizeCardTitle(t);
      && NoDoubleSpace(r) && Trimmed(r)
      && (ch in CleanedAway ==> ch !in r)
  {
    LineFixesTidy();
    TitleSpacingClean(TitleCharFixes(t));
    if ch in CleanedAway { CleanTitleTextDrops(t, ch); }
    TidyFixesKeep(CleanTitleText(t), LineFixes, ch);
  }

  /**
   * The blank results of `normalizeLine` are exactly the superfluous lines
   * (`normalizeLine` trims its line first, so `l` is trimmed).
   */
  lemma NormalizeTextBlank(l: string, headings: seq<string>, objectiveTitles: seq<string>,
                           fixTitle: string -> string, cardTitle: string -> string)
    requires Trim(l) == l
    ensures NormalizeText(l, headings, objectiveTitles, fixTitle, cardTitle) == "" <==> Superfluous(l)
  {
  }

  /** A heading line becomes "\n" and the plural heading, or "\nSTARTING"; nothing else starts with "\n". */
  lemma NormalizeTextHeading(l: string, headings: seq<string>, objectiveTitles: seq<string>,
                           fixTitle: string -> string, cardTitle: string -> string)
    ensures var r := NormalizeText(l, headings, objectiveTitles, fixTitle, cardTitle);
      && ((r != [] && r[0] == '\n') <==> (!Superfluous(l) && HeadingOf(l, headings).Some?))
      && (!Superfluous(l) && HeadingOf(l, headings).Some? ==>
            var h := HeadingOf(l, headings).value;
            h in headings && IsHeading(l, h)
            && r == "\n" + (if h == "STARTING" then "STARTING" else h + "S"))
  {
  }

  /**
   * A line that abbreviates an Objective becomes "1x " and that Objective's
   * title: the first listed title whose virtual status is the line's and
   * which the line's normalised title begins.
   */
  lemma NormalizeTextObjective(l: string, headings: seq<string>, objectiveTitles: seq<string>,
                           fixTitle: string -> string, cardTitle: string -> string)
    requires !Superfluous(l) && HeadingOf(l, headings).None?
    requires FoundObjective(objectiveTitles, l, fixTitle(ParseQty(l).1), cardTitle).Some?
    ensures var ot := FoundObjective(objectiveTitles, l, fixTitle(ParseQty(l).1), cardTitle).value;
      var r := NormalizeText(l, headings, objectiveTitles, fixTitle, cardTitle);
      && ot in objectiveTitles
      && (Contains(ot, "(V)") <==> Contains(l, "(V)"))
      && (exists k :: 0 <= k < |objectiveTitles| && objectiveTitles[k] == ot
            && forall j :: 0 <= j < k ==>
              !AbbreviatesObjective(objectiveTitles[j], l, fixTitle(ParseQty(l).1), cardTitle))
      && r == "1x " + ReplaceAll(ot, " (V)", "") + (if Contains(l, "(V)") then " (V)" else "")
  {
  }

  /**
   * Any other line becomes its quantity, "x " and its normalised title; the
   * digits in front read back as the quantity.
   */
  lemma NormalizeTextCard(l: string, headings: seq<string>, objectiveTitles: seq<string>,
                           fixTitle: string -> string, cardTitle: string -> string)
    requires Trim(l) == l && !Superfluous(l) && HeadingOf(l, headings).None?
    requires FoundObjective(objectiveTitles, l, fixTitle(ParseQty(l).1), cardTitle).None?
    ensures var (qty, title) := ParseQty(l);
      var r := NormalizeText(l, headings, objectiveTitles, fixTitle, cardTitle);
      var n := |NatToString(qty)|;
      && n + 2 <= |r|
      && (forall k :: 0 <= k < n ==> IsDigit(r[k]))
      && ParseDigits(r[..n]) == qty
      && r[n..n + 2] == "x "
      && r[n + 2..] == cardTitle(fixTitle(title))
  {
    var (qty, title) := ParseQty(l);
    NormalizeTextCardForm(l, headings, objectiveTitles, fixTitle, cardTitle);
    QtyLine(qty, cardTitle(fixTitle(title)));
  }

  /** `NormalizeTextCard`: the line is rendered as its quantity, "x " and its title. */
  lemma NormalizeTextCardForm(l: string, headings: seq<string>, objectiveTitles: seq<string>,
                              fixTitle: string -> string, cardTitle: string -> string)
    requires Trim(l) == l && !Superfluous(l) && HeadingOf(l, headings).None?
    requires FoundObjective(objectiveTitles, l, fixTitle(ParseQty(l).1), cardTitle).None?
    ensures NormalizeText(l, headings, objectiveTitles, fixTitle, cardTitle)
      == NatToString(ParseQty(l).0) + "x " + cardTitle(fixTitle(ParseQty(l).1))
  {
    assert Trim(l) != "";
  }

  /** A quantity rendered in front of "x " and a title reads back as that quantity. */
  lemma QtyLine(qty: nat, rest: string)
    ensures var q := NatToString(qty); var r := q + "x " + rest; var n := |q|;
      && n + 2 <= |r|
      && (forall k :: 0 <= k < n ==> IsDigit(r[k]))
      && ParseDigits(r[..n]) == qty
      && r[n..n + 2] == "x "
      && r[n + 2..] == rest
  {
    var q := NatToString(qty);
    var r := q + "x " + rest;
    assert r[..|q|] == q;
    ParseNatToString(qty);
  }

  /** "Nx Title" and "NNx Title": the number in front is the quantity, the rest the title. */
  lemma ParseQtyLeading(d: string, x: char, sp: char, rest: string)
    requires (|d| == 1 || |d| == 2) && forall k :: 0 <= k < |d| ==> IsDigit(d[k])
    requires IsX(x) && IsSpace(sp)
    ensures ParseQty(d + [x, sp] + rest) == (ParseDigits(d), Trim(rest))
  {
    var l := d + [x, sp] + rest;
    var n := |d| + 2;
    assert l[..|d|] == d;
    assert l[|d|] == x && l[|d| + 1] == sp;
    assert LeadingQty(l) == Some(QtyMatch(l[..n], ParseDigits(d))) by {
      if |d| == 2 {
        assert IsDigit(l[0]) && IsDigit(l[1]);
      } else {
        assert IsDigit(l[0]) && !IsDigit(l[1]);
      }
    }
    assert QtyOf(l) == Some(QtyMatch(l[..n], ParseDigits(d)));
    PresentFirst(l, l[..n], "");
    assert l[n..] == rest;
    assert ReplaceFirst(l, l[..n], "") == rest;
  }

  /** "xN Title" and "xNN Title": when no trailing count ends the line, the number after the "x" is the quantity. */
  lemma ParseQtyLeadingX(x: char, d: string, sp: char, rest: string)
    requires IsX(x) && IsSpace(sp)
    requires (|d| == 1 || |d| == 2) && forall k :: 0 <= k < |d| ==> IsDigit(d[k])
    requires rest == [] || !IsDigit(rest[|rest| - 1])
    ensures ParseQty([x] + d + [sp] + rest) == (ParseDigits(d), Trim(rest))
  {
    var l := [x] + d + [sp] + rest;
    var n := |d| + 2;
    LeadingXQtyOf(l, x, d, sp, rest);
    PresentFirst(l, l[..n], "");
    assert l[n..] == rest;
    assert ReplaceFirst(l, l[..n], "") == rest;
  }

  /** Only the third quantity pattern matches such a line, and it reads the digits after the "x". */
  lemma LeadingXQtyOf(l: string, x: char, d: string, sp: char, rest: string)
    requires l == [x] + d + [sp] + rest
    requires IsX(x) && IsSpace(sp)
    requires (|d| == 1 || |d| == 2) && forall k :: 0 <= k < |d| ==> IsDigit(d[k])
    requires rest == [] || !IsDigit(rest[|rest| - 1])
    ensures QtyOf(l) == Some(QtyMatch(l[..|d| + 2], ParseDigits(d)))
  {
    LeadingXChars(l, x, d, sp, rest);
    assert LeadingQty(l).None?;
    assert TrailingQty(l).None?;
    LeadingXFound(l, d);
  }

  /** Where the parts of an "xN Title" line sit. */
  lemma LeadingXChars(l: string, x: char, d: string, sp: char, rest: string)
    requires l == [x] + d + [sp] + rest
    requires IsX(x) && IsSpace(sp)
    requires rest == [] || !IsDigit(rest[|rest| - 1])
    ensures |l| == |d| + 2 + |rest| && l[0] == x && l[|d| + 1] == sp && l[1..|d| + 1] == d
    ensures !IsDigit(l[0]) && !IsDigit(l[|l| - 1])
  {
    if rest == [] {
      assert l[|l| - 1] == sp;
    } else {
      assert l[|l| - 1] == rest[|rest| - 1];
    }
  }

  /** An "x", one or two digits and a space at the front are read as the "xN " quantity. */
  lemma LeadingXFound(l: string, d: string)
    requires (|d| == 1 || |d| == 2) && forall k :: 0 <= k < |d| ==> IsDigit(d[k])
    requires |l| >= |d| + 2 && IsX(l[0]) && l[1..|d| + 1] == d && IsSpace(l[|d| + 1])
    ensures LeadingXQty(l) == Some(QtyMatch(l[..|d| + 2], ParseDigits(d)))
  {
    if |d| == 2 {
      assert IsDigit(l[1]) && IsDigit(l[2]);
      assert l[1..3] == d;
    } else {
      assert IsDigit(l[1]) && !IsDigit(l[2]);
    }
  }



  /** "Title xN": a trailing count is the quantity when nothing leads the line. */
  lemma ParseQtyTrailing(t: string, sp: char, x: char, d: string)
    requires t != [] && !IsDigit(t[0]) && !IsX(t[0])
    requires (|d| == 1 || |d| == 2) && forall k :: 0 <= k < |d| ==> IsDigit(d[k])
    requires IsSpace(sp) && IsX(x)
    ensures ParseQty(t + [sp, x] + d).0 == ParseDigits(d)
  {
    var l := t + [sp, x] + d;
    assert l[0] == t[0];
    assert LeadingQty(l).None?;
    TrailingQtyOf(l, t, sp, x, d);
  }

  /** The trailing count a line ends in, read back digit by digit. */
  lemma TrailingQtyOf(l: string, t: string, sp: char, x: char, d: string)
    requires l == t + [sp, x] + d
    requires (|d| == 1 || |d| == 2) && forall k :: 0 <= k < |d| ==> IsDigit(d[k])
    requires IsSpace(sp) && IsX(x)
    ensures TrailingQty(l).Some? && TrailingQty(l).value.qty == ParseDigits(d)
  {
    var n := |l|;
    assert l[n - |d|..] == d;
    if |d| == 2 {
      assert IsSpace(l[n - 4]) && IsX(l[n - 3]) && IsDigit(l[n - 2]) && IsDigit(l[n - 1]);
    } else {
      assert l[n - 1] == d[0];
      assert IsSpace(l[n - 3]) && IsX(l[n - 2]) && IsDigit(l[n - 1]);
    }
  }

  /** A line without digits has quantity 1 and is its own title. */
  lemma ParseQtyDefault(l: string)
    requires forall k :: 0 <= k < |l| ==> !IsDigit(l[k])
    ensures ParseQty(l) == (1, l)
  {
    DigitlessNoQty(l);
    assert DropLeadingCount(l) == l;
    assert DropTrailingCount(l) == l;
    assert DropLeadingXCount(l) == l;
  }

  /** None of the three quantity forms matches a line without digits. */
  lemma DigitlessNoQty(l: string)
    requires forall k :: 0 <= k < |l| ==> !IsDigit(l[k])
    ensures QtyOf(l).None?
  {
    assert LeadingQty(l).None?;
    assert TrailingQty(l).None?;
    assert LeadingXQty(l).None?;
  }

  /** Whether a line spells heading `h` depends only on what follows `h` in it. */
  lemma IsHeadingByTail(l: string, h: string, tail: string)
    requires ToLower(l) == ToLower(h) + tail
    ensures IsHeading(l, h) <==> HeadingTail(tail)
  {
    var low, lh := ToLower(l), ToLower(h);
    assert low[..|lh|] == lh;
    StartsWithIff(low, lh);
    assert StartsWith(low, lh);
    assert low[|h|..] == tail;
  }

  /** "s" for a plural heading, then up to two ":". */
  function HeadingSuffix(plural: bool, colons: nat): string
  {
    (if plural then "s" else "") + seq(colons, _ => ':')
  }

  /** The marks are read up to the first character that is neither "s" nor ":". */
  lemma MarksLenSuffix(plural: bool, colons: nat, u: string)
    requires colons <= 2 && (u == [] || (u[0] != 's' && u[0] != ':'))
    ensures MarksLen(HeadingSuffix(plural, colons) + u) == |HeadingSuffix(plural, colons)|
  {
    var pre := HeadingSuffix(plural, colons);
    var t := pre + u;
    var a := if plural then 1 else 0;
    assert |pre| == a + colons;
    assert forall k :: a <= k < |pre| ==> t[k] == ':';
    if u != [] {
      assert t[|pre|] == u[0];
    }
  }

  /** Each bare form of a heading line: "Character", "Characters", "Character:", "Characters::" and so on. */
  lemma HeadingTailBare(plural: bool, colons: nat)
    requires colons <= 2
    ensures HeadingTail(HeadingSuffix(plural, colons))
  {
    var t := HeadingSuffix(plural, colons);
    MarksLenSuffix(plural, colons, []);
    assert t + [] == t;
    assert t[|t|..] == [];
  }

  /** A heading form followed by a count in brackets: "Characters: (12)". */
  lemma HeadingTailCounted(plural: bool, colons: nat, sp: char, d: string)
    requires colons <= 2 && IsSpace(sp)
    requires (|d| == 1 || |d| == 2) && forall k :: 0 <= k < |d| ==> IsDigit(d[k])
    ensures HeadingTail(HeadingSuffix(plural, colons) + [sp, '('] + d + [')'])
  {
    var pre := HeadingSuffix(plural, colons);
    var u := [sp, '('] + d + [')'];
    assert pre + [sp, '('] + d + [')'] == pre + u;
    MarksLenSuffix(plural, colons, u);
    assert (pre + u)[|pre|..] == u;
    assert CountTail(u) by {
      assert u[1] == '(' && u[2] == d[0] && u[|u| - 1] == ')';
      if |d| == 2 {
        assert u[3] == d[1];
      }
    }
  }

  /** A heading that a word goes on after is not a heading line. */
  lemma HeadingTailRejectsWord(tail: string)
    requires tail != [] && IsAsciiLower(tail[0]) && tail[0] != 's'
    ensures !HeadingTail(tail)
  {
  }

  /** A phrase, in any case, that ends a word or the text gets its "!" back. */
  lemma PhraseBangRestores(s: string, phrase: string)
    requires phrase != [] && PhraseAt(s, phrase, 0)
    requires |s| == |phrase| || IsSpace(s[|phrase|]) || s[|phrase|] == '/'
    ensures var r := PhraseBang(s, phrase); |r| > |phrase| && r[..|phrase| + 1] == phrase + "!"
  {
    var bang := phrase + "!";
    var rest := PhraseBangRest(s, phrase);
    assert PhraseBang(s, phrase) == bang + rest;
    assert (bang + rest)[..|bang|] == bang;
  }

  /** What `PhraseBang` writes after the restored phrase and its "!". */
  function PhraseBangRest(s: string, phrase: string): (rest: string)
    requires phrase != [] && PhraseAt(s, phrase, 0)
    requires |s| == |phrase| || IsSpace(s[|phrase|]) || s[|phrase|] == '/'
    ensures PhraseBang(s, phrase) == phrase + "!" + rest
  {
    var e := |phrase|;
    if e == |s| then []
    else
      var rest := [s[e]] + PhraseBang(s[e + 1..], phrase);
      assert phrase + "!" + [s[e]] + PhraseBang(s[e + 1..], phrase) == phrase + "!" + rest;
      rest
  }

  /** Text in which the phrase does not occur, in any case, is left as it is. */
  lemma {:induction false} PhraseBangAbsent(s: string, phrase: string)
    requires phrase != []
    requires forall i: nat :: i < |s| ==> !PhraseAt(s, phrase, i)
    ensures PhraseBang(s, phrase) == s
    decreases |s|
  {
    if s != [] {
      var t := s[1..];
      forall i: nat | i < |t|
        ensures !PhraseAt(t, phrase, i)
      {
        assert !PhraseAt(s, phrase, i + 1);
        if i + |phrase| <= |t| {
          assert t[i..i + |phrase|] == s[i + 1..i + 1 + |phrase|];
        }
      }
      assert !PhraseAt(s, phrase, 0);
      PhraseBangAbsent(t, phrase);
    }
  }

  /** A character in front moves every index by one. */
  lemma {:induction false} TagCloseShift(c: char, t: string, i: nat)
    requires i <= |t|
    ensures TagClose([c] + t, i + 1).None? <==> TagClose(t, i).None?
    decreases |t| - i
  {
    var u := [c] + t;
    if i < |t| {
      assert u[i + 1] == t[i];
      TagCloseShift(c, t, i + 1);
    }
  }

  /** Removing tags cannot bring a ">" onto a first line that had none. */
  lemma {:induction false} StripTagsKeepsNoClose(u: string)
    requires TagClose(u, 0).None?
    ensures TagClose(StripTags(u), 0).None?
    decreases |u|
  {
    if u != [] && !IsLineTerminator(u[0]) {
      assert u[0] != '>' && TagClose(u, 1).None?;
      var v := u[1..];
      TagCloseShift(u[0], v, 0);
      assert [u[0]] + v == u;
      StripTagsKeepsNoClose(v);
      var t := StripTags(v);
      assert StripTags(u) == [u[0]] + t;
      TagCloseShift(u[0], t, 0);
    }
  }

  /** No tag survives `StripTags`: a "<" left in the text has no ">" after it on its line. */
  lemma {:induction false} StripTagsLeavesNoTag(s: string, i: nat)
    requires i < |StripTags(s)| && StripTags(s)[i] == '<'
    ensures TagClose(StripTags(s), i + 1).None?
    decreases |s|
  {
    if s[0] == '<' && TagClose(s, 1).Some? {
      StripTagsLeavesNoTag(s[TagClose(s, 1).value + 1..], i);
    } else {
      var v := s[1..];
      var t := StripTags(v);
      assert StripTags(s) == [s[0]] + t;
      assert [s[0]] + v == s;
      if i > 0 {
        assert t[i - 1] == '<';
        StripTagsLeavesNoTag(v, i - 1);
        TagCloseShift(s[0], t, i);
      } else {
        TagCloseShift(s[0], v, 0);
        StripTagsKeepsNoClose(v);
        TagCloseShift(s[0], t, 0);
      }
    }
  }

  // ----- what removeHtmlTagsAndEscapes makes of markup ----------------------------------

  /** The characters the markup pass or the decoding pass acts on. */
  const HtmlMarks: set<char> := {'<', '&', '\\', '\U{201C}', '\U{201D}', '\U{2018}', '\U{2019}', '`', '\U{00B4}'}

  /** Text holding no markup, no entity and no typographic quote. */
  predicate PlainText(s: string)
  {
    forall c :: c in s ==> c !in HtmlMarks
  }

  /** A run of line-break tags: `<br/>` where `slashed` says so, `<br>` elsewhere. */
  function BreakTags(slashed: seq<bool>): (r: string)
    ensures forall c :: c in r ==> c in "<br/>"
  {
    if slashed == [] then [] else (if slashed[0] then "<br/>" else "<br>") + BreakTags(slashed[1..])
  }

  /** A tag that is not a line break or a paragraph end: `<t>` with no "<", ">", "\" or line break inside. */
  predicate OtherTag(t: string)
  {
    && '<' !in t && '>' !in t && '\\' !in t
    && (forall c :: c in t ==> !IsLineTerminator(c))
    && "<" + t + ">" != "<br>" && "<" + t + ">" != "<br/>" && "<" + t + ">" != "</p>"
  }

  /** Text with no "<" in front of the break-tag collapse is kept. */
  lemma {:induction false} CollapseBreaksPrefix(u: string, w: string)
    requires '<' !in u
    ensures CollapseBreaks(u + w) == u + CollapseBreaks(w)
    decreases |u|
  {
    if u != [] {
      var s := u + w;
      assert s[0] == u[0] && u[0] in u;
      assert s[1..] == u[1..] + w;
      assert !StartsWith(s, "<br/>") && !StartsWith(s, "<br>");
      assert CollapseBreaks(s) == [u[0]] + CollapseBreaks(u[1..] + w);
      CollapseBreaksPrefix(u[1..], w);
      assert [u[0]] + u[1..] == u;
    } else {
      assert u + w == w;
    }
  }

  /** Text with no "<" in front of the tag removal is kept. */
  lemma {:induction false} StripTagsPrefix(u: string, w: string)
    requires '<' !in u
    ensures StripTags(u + w) == u + StripTags(w)
    decreases |u|
  {
    if u != [] {
      var s := u + w;
      assert s[0] == u[0] && u[0] in u;
      assert s[1..] == u[1..] + w;
      assert StripTags(s) == [u[0]] + StripTags(u[1..] + w);
      StripTagsPrefix(u[1..], w);
      assert [u[0]] + u[1..] == u;
    } else {
      assert u + w == w;
    }
  }

  /** The break-tag length at the front of text that begins with a tag of each kind, or with none. */
  lemma BreakLenFront(rest: string, v: string)
    requires v == [] || v[0] != '<'
    ensures BreakLen("<br/>" + rest) == 5 && BreakLen("<br>" + rest) == 4 && BreakLen(v) == 0
  {
    var x, y := "<br/>" + rest, "<br>" + rest;
    StartsWithIff(x, "<br/>");
    assert x[..5] == "<br/>";
    StartsWithIff(y, "<br/>");
    StartsWithIff(y, "<br>");
    assert y[..4] == "<br>";
    if |y| >= 5 {
      assert y[..5][3] != "<br/>"[3];
    }
  }

  /** One break tag at the front is skipped. */
  lemma SkipBreaksFront(slashed: bool, rest: string)
    ensures var tag := if slashed then "<br/>" else "<br>";
      BreakLen(tag + rest) > 0 && SkipBreaks(tag + rest) == SkipBreaks(rest)
  {
    BreakLenFront(rest, []);
    if slashed {
      assert ("<br/>" + rest)[5..] == rest;
    } else {
      assert ("<br>" + rest)[4..] == rest;
    }
  }

  /** A run of break tags is skipped as a whole, and only it. */
  lemma {:induction false} SkipBreaksRun(slashed: seq<bool>, v: string)
    requires v == [] || v[0] != '<'
    ensures slashed != [] ==> BreakLen(BreakTags(slashed) + v) > 0
    ensures SkipBreaks(BreakTags(slashed) + v) == v
    decreases |slashed|
  {
    if slashed == [] {
      assert BreakTags(slashed) + v == v;
      BreakLenFront([], v);
    } else {
      SkipBreaksRun(slashed[1..], v);
      SkipBreaksStep(slashed, v);
    }
  }

  lemma SkipBreaksStep(slashed: seq<bool>, v: string)
    requires slashed != [] && SkipBreaks(BreakTags(slashed[1..]) + v) == v
    ensures BreakLen(BreakTags(slashed) + v) > 0 && SkipBreaks(BreakTags(slashed) + v) == v
  {
    BreakTagsCons(slashed, v);
    SkipBreaksFront(slashed[0], BreakTags(slashed[1..]) + v);
  }

  lemma BreakTagsCons(slashed: seq<bool>, v: string)
    requires slashed != []
    ensures BreakTags(slashed) + v == (if slashed[0] then "<br/>" else "<br>") + (BreakTags(slashed[1..]) + v)
  {
    var tag := if slashed[0] then "<br/>" else "<br>";
    var tags := BreakTags(slashed[1..]);
    assert BreakTags(slashed) == tag + tags;
    assert (tag + tags) + v == tag + (tags + v);
  }

  /** `<t>` with no ">" inside does not begin with another tag `p`. */
  lemma TagNotAt(x: string, t: string, p: string)
    requires '>' !in t && |x| >= |t| + 2 && x[..|t| + 2] == "<" + t + ">"
    requires 2 <= |p| && p[|p| - 1] == '>' && '>' !in p[..|p| - 1]
    requires "<" + t + ">" != p
    ensures !OccursAt(x, p, 0)
  {
    var m := |t| + 1;
    assert x[m] == x[..|t| + 2][m];
    if |p| <= |x| {
      if m < |p| - 1 {
        assert p[m] == p[..|p| - 1][m];
        assert x[..|p|][m] != p[m];
      } else if m > |p| - 1 {
        assert x[|p| - 1] == x[..|t| + 2][|p| - 1] == t[|p| - 2];
        assert t[|p| - 2] in t;
        assert x[..|p|][|p| - 1] != p[|p| - 1];
      } else {
        assert x[..|p|] == "<" + t + ">";
      }
    }
  }

  /** The ">" that closes `<t>` is the first on its line after the "<". */
  lemma {:induction false} TagCloseAt(t: string, v: string, i: nat)
    requires '>' !in t && (forall c :: c in t ==> !IsLineTerminator(c))
    requires 1 <= i <= |t| + 1
    ensures TagClose("<" + t + ">" + v, i) == Some(|t| + 1)
    decreases |t| + 1 - i
  {
    var x := "<" + t + ">" + v;
    if i <= |t| {
      assert x[i] == t[i - 1] && t[i - 1] in t;
      TagCloseAt(t, v, i + 1);
    } else {
      assert x[i] == '>';
    }
  }

  /** Neither the break collapse nor the paragraph rule touches another tag. */
  lemma CollapseBreaksTag(t: string, v: string)
    requires '<' !in t && '>' !in t && '<' !in v
    requires "<" + t + ">" != "<br>" && "<" + t + ">" != "<br/>"
    ensures CollapseBreaks("<" + t + ">" + v) == "<" + t + ">" + v
  {
    var x := "<" + t + ">" + v;
    NoBreakAtTag(t, v);
    assert x[0] == '<' && x[1..] == t + ">" + v;
    assert CollapseBreaks(x) == "<" + CollapseBreaks(t + ">" + v);
    CollapseBreaksPrefix(t + ">", v);
    CollapseBreaksPrefix(v, []);
    assert v + [] == v;
  }

  /** `<t>` is not a break tag, so no break is seen at its front. */
  lemma NoBreakAtTag(t: string, v: string)
    requires '<' !in t && '>' !in t
    requires "<" + t + ">" != "<br>" && "<" + t + ">" != "<br/>"
    ensures BreakLen("<" + t + ">" + v) == 0
  {
    var x := "<" + t + ">" + v;
    assert x[..|t| + 2] == "<" + t + ">";
    TagNotAt(x, t, "<br/>");
    TagNotAt(x, t, "<br>");
    StartsWithIff(x, "<br/>");
    StartsWithIff(x, "<br>");
  }

  /** After the break collapse, text with no "<" has no paragraph end or tag left to remove. */
  lemma MarkupTail(b: string)
    requires '<' !in b
    ensures StripTags(ReplaceAll(b, "</p>", "\n\n")) == b
  {
    AbsentAll(b, "</p>", "\n\n");
    StripTagsPrefix(b, []);
    assert b + [] == b;
  }

  /** Without "<" or "\", the markup pass changes nothing. */
  lemma MarkupPlain(s: string)
    requires '<' !in s && '\\' !in s
    ensures MarkupToText(s) == s
  {
    AbsentAll(s, "\\n", "");
    CollapseBreaksPrefix(s, []);
    assert s + [] == s;
    MarkupTail(s);
  }

  /** Text with no "&" has no named entity to decode. */
  lemma DecodeNamedPlain(s: string)
    requires '&' !in s
    ensures DecodeNamed(s) == s
  {
    AbsentAll(s, "&amp;", "&");
    AbsentAll(s, "&nbsp;", " ");
    AbsentAll(s, "&lt;", "<");
    AbsentAll(s, "&gt;", ">");
  }

  /** The typographic quotes and accents that are straightened. */
  const TypographicQuotes: set<char> := {'\U{201C}', '\U{201D}', '\U{2018}', '\U{2019}', '`', '\U{00B4}'}

  /**
   * Text with no typographic quote, and no "&" or no ";" (so no entity), has
   * no quote to straighten.
   */
  lemma DecodeQuotesAbsent(s: string)
    requires forall c :: c in s ==> c !in TypographicQuotes
    requires '&' !in s || ';' !in s
    ensures DecodeQuotes(s) == s
  {
    QuoteEntitiesAbsent(s);
    ApostropheEntitiesAbsent(ReplaceAllAlt(s, QuoteEntities, "\""));
  }

  lemma QuoteEntitiesAbsent(s: string)
    requires forall c :: c in s ==> c !in TypographicQuotes
    requires '&' !in s || ';' !in s
    ensures ReplaceAllAlt(s, QuoteEntities, "\"") == s
  {
    if '&' !in s {
      AbsentAllAlt(s, QuoteEntities, "\"", [0, 0, 0, 0, 0]);
    } else {
      AbsentAllAlt(s, QuoteEntities, "\"", [5, 6, 6, 0, 0]);
    }
  }

  lemma ApostropheEntitiesAbsent(s: string)
    requires forall c :: c in s ==> c !in TypographicQuotes
    requires '&' !in s || ';' !in s
    ensures ReplaceAllAlt(s, ApostropheEntities, "'") == s
  {
    if '&' !in s {
      AbsentAllAlt(s, ApostropheEntities, "'", [0, 0, 0, 0, 0]);
    } else {
      AbsentAllAlt(s, ApostropheEntities, "'", [5, 0, 0, 0, 0]);
    }
  }

  /** Plain text is decoded to itself. */
  lemma DecodePlain(s: string)
    requires PlainText(s)
    ensures DecodeEntities(s) == s
  {
    DecodeNamedPlain(s);
    DecodeQuotesAbsent(s);
  }

  /** Text with no markup, entity or typographic quote comes through unchanged. */
  lemma RemoveHtmlPlain(s: string)
    requires PlainText(s)
    ensures RemoveHtmlTagsAndEscapes(s) == s
  {
    MarkupPlain(s);
    DecodePlain(s);
  }

  /** The break collapse turns a run of break tags into one "\n". */
  lemma CollapseBreaksRun(u: string, slashed: seq<bool>, v: string)
    requires '<' !in u && '<' !in v && slashed != []
    ensures CollapseBreaks(u + BreakTags(slashed) + v) == u + "\n" + v
  {
    var run := BreakTags(slashed);
    assert u + run + v == u + (run + v);
    CollapseBreaksPrefix(u, run + v);
    if v != [] {
      assert v[0] in v;
    }
    SkipBreaksRun(slashed, v);
    CollapseBreaksPrefix(v, []);
    assert v + [] == v;
  }

  /** The markup pass turns a run of break tags into one "\n". */
  lemma MarkupBreaks(u: string, slashed: seq<bool>, v: string)
    requires '<' !in u && '<' !in v && '\\' !in u && '\\' !in v && slashed != []
    ensures MarkupToText(u + BreakTags(slashed) + v) == u + "\n" + v
  {
    var doc := u + BreakTags(slashed) + v;
    AbsentAll(doc, "\\n", "");
    CollapseBreaksRun(u, slashed, v);
    MarkupTail(u + "\n" + v);
  }

  /** A run of `<br>` and `<br/>` tags between plain texts becomes one line break. */
  lemma RemoveHtmlBreaks(u: string, slashed: seq<bool>, v: string)
    requires PlainText(u) && PlainText(v) && slashed != []
    ensures RemoveHtmlTagsAndEscapes(u + BreakTags(slashed) + v) == u + "\n" + v
  {
    MarkupBreaks(u, slashed, v);
    DecodePlain(u + "\n" + v);
  }

  /** The markup pass turns a paragraph end into two "\n". */
  lemma MarkupParagraph(u: string, v: string)
    requires '<' !in u && '<' !in v && '\\' !in u && '\\' !in v
    ensures MarkupToText(u + "</p>" + v) == u + "\n\n" + v
  {
    var doc := u + "</p>" + v;
    AbsentAll(doc, "\\n", "");
    ParagraphNoBreak(u, v);
    ParagraphSplit(u, v);
    var c := u + "\n\n" + v;
    StripTagsPrefix(c, []);
    assert c + [] == c;
    MarkupStages(doc, doc, doc, c, c);
  }

  lemma ParagraphNoBreak(u: string, v: string)
    requires '<' !in u && '<' !in v
    ensures CollapseBreaks(u + "</p>" + v) == u + "</p>" + v
  {
    assert u + "</p>" + v == u + ("</p>" + v);
    CollapseBreaksPrefix(u, "</p>" + v);
    ClosingParagraphKept(v);
  }

  lemma ClosingParagraphKept(v: string)
    requires '<' !in v
    ensures CollapseBreaks("</p>" + v) == "</p>" + v
  {
    assert "</p>"[1] != "<br>"[1];
    CollapseBreaksTag("/p", v);
    assert "<" + "/p" + ">" + v == "</p>" + v;
  }

  lemma ParagraphSplit(u: string, v: string)
    requires '<' !in u && '<' !in v
    ensures ReplaceAll(u + "</p>" + v, "</p>", "\n\n") == u + "\n\n" + v
  {
    ReplaceAllSplit(u, "</p>", v, "\n\n");
    AbsentAll(v, "</p>", "\n\n");
  }

  /** A paragraph end between plain texts becomes a blank line. */
  lemma RemoveHtmlParagraph(u: string, v: string)
    requires PlainText(u) && PlainText(v)
    ensures RemoveHtmlTagsAndEscapes(u + "</p>" + v) == u + "\n\n" + v
  {
    MarkupParagraph(u, v);
    DecodePlain(u + "\n\n" + v);
  }

  /** Tag removal drops `<t>` and everything up to its ">". */
  lemma StripTagsTag(u: string, t: string, v: string)
    requires '<' !in u && '<' !in v && '>' !in t && (forall c :: c in t ==> !IsLineTerminator(c))
    ensures StripTags(u + "<" + t + ">" + v) == u + v
  {
    var tag := "<" + t + ">";
    assert u + "<" + t + ">" + v == u + (tag + v);
    StripTagsPrefix(u, tag + v);
    TagCloseAt(t, v, 1);
    assert (tag + v)[0] == '<';
    assert (tag + v)[|t| + 2..] == v;
    assert StripTags(tag + v) == StripTags(v);
    StripTagsPrefix(v, []);
    assert v + [] == v;
  }

  /** The markup pass drops any other tag. */
  lemma MarkupTag(u: string, t: string, v: string)
    requires '<' !in u && '<' !in v && '\\' !in u && '\\' !in v && OtherTag(t)
    ensures MarkupToText(u + "<" + t + ">" + v) == u + v
  {
    var doc := u + "<" + t + ">" + v;
    TagNoEscape(u, t, v);
    TagNoBreak(u, t, v);
    TagNoParagraph(u, t, v);
    StripTagsTag(u, t, v);
    MarkupStages(doc, doc, doc, doc, u + v);
  }

  /** The four passes of the markup removal, one result after another. */
  lemma MarkupStages(doc: string, a: string, b: string, c: string, r: string)
    requires ReplaceAll(doc, "\\n", "") == a && CollapseBreaks(a) == b
    requires ReplaceAll(b, "</p>", "\n\n") == c && StripTags(c) == r
    ensures MarkupToText(doc) == r
  {
  }

  lemma TagNoEscape(u: string, t: string, v: string)
    requires '\\' !in u && '\\' !in v && OtherTag(t)
    ensures var doc := u + "<" + t + ">" + v; ReplaceAll(doc, "\\n", "") == doc
  {
    var doc := u + "<" + t + ">" + v;
    assert forall c :: c in doc ==> c in u || c == '<' || c in t || c == '>' || c in v;
    AbsentAll(doc, "\\n", "");
  }

  lemma TagNoBreak(u: string, t: string, v: string)
    requires '<' !in u && '<' !in v && OtherTag(t)
    ensures var doc := u + "<" + t + ">" + v; CollapseBreaks(doc) == doc
  {
    var tag := "<" + t + ">";
    assert u + "<" + t + ">" + v == u + (tag + v);
    CollapseBreaksPrefix(u, tag + v);
    CollapseBreaksTag(t, v);
  }

  lemma TagNoParagraph(u: string, t: string, v: string)
    requires '<' !in u && '<' !in v && OtherTag(t)
    ensures var doc := u + "<" + t + ">" + v; ReplaceAll(doc, "</p>", "\n\n") == doc
  {
    var tag := "<" + t + ">";
    assert u + "<" + t + ">" + v == u + tag + v;
    assert (tag + v)[..|t| + 2] == tag;
    TagNotAt(tag + v, t, "</p>");
    assert tag[1..] == t + ">";
    AbsentAllBetween(u, tag, v, "</p>", "\n\n");
  }

  /** Any other tag between plain texts is removed. */
  lemma RemoveHtmlTag(u: string, t: string, v: string)
    requires PlainText(u) && PlainText(v) && OtherTag(t)
    ensures RemoveHtmlTagsAndEscapes(u + "<" + t + ">" + v) == u + v
  {
    MarkupTag(u, t, v);
    DecodePlain(u + v);
  }

  /** The four named-entity passes, one equation each. */
  lemma DecodeStages(d: string, e: string, f: string, g: string, h: string)
    requires ReplaceAll(d, "&amp;", "&") == e && ReplaceAll(e, "&nbsp;", " ") == f
    requires ReplaceAll(f, "&lt;", "<") == g && ReplaceAll(g, "&gt;", ">") == h
    ensures DecodeNamed(d) == h
  {
  }

  /** The quote pass leaves plain text joined by one character alone. */
  lemma DecodeQuotesJoin(u: string, m: char, v: string)
    requires PlainText(u) && PlainText(v) && m !in TypographicQuotes
    requires m != '&' || (';' !in u && ';' !in v && m != ';')
    ensures DecodeQuotes(u + [m] + v) == u + [m] + v
  {
    var s := u + [m] + v;
    forall c | c in s
      ensures c !in TypographicQuotes && (c == '&' ==> c == m)
    {
      if c in u { assert c !in HtmlMarks; } else if c in v { assert c !in HtmlMarks; }
    }
    DecodeQuotesAbsent(s);
  }

  /** `&amp;` becomes "&", which no later entity rule can then use when there is no ";" about. */
  lemma DecodeAmp(u: string, v: string)
    requires PlainText(u) && PlainText(v) && ';' !in u && ';' !in v
    ensures DecodeEntities(u + "&amp;" + v) == u + "&" + v
  {
    ReplaceAllSplit(u, "&amp;", v, "&");
    AbsentAll(v, "&amp;", "&");
    var e := u + "&" + v;
    AbsentCharAll(e, "&nbsp;", " ", ';');
    AbsentCharAll(e, "&lt;", "<", ';');
    AbsentCharAll(e, "&gt;", ">", ';');
    DecodeStages(u + "&amp;" + v, e, e, e, e);
    DecodeQuotesJoin(u, '&', v);
  }

  lemma DecodeNbsp(u: string, v: string)
    requires PlainText(u) && PlainText(v)
    ensures DecodeEntities(u + "&nbsp;" + v) == u + " " + v
  {
    var q := "&nbsp;";
    assert (q + v)[1] == 'n';
    AbsentAllBetween(u, q, v, "&amp;", "&");
    ReplaceAllSplit(u, q, v, " ");
    AbsentAll(v, q, " ");
    var f := u + " " + v;
    AbsentAll(f, "&lt;", "<");
    AbsentAll(f, "&gt;", ">");
    DecodeStages(u + q + v, u + q + v, f, f, f);
    DecodeQuotesJoin(u, ' ', v);
  }

  lemma DecodeLt(u: string, v: string)
    requires PlainText(u) && PlainText(v)
    ensures DecodeEntities(u + "&lt;" + v) == u + "<" + v
  {
    var q := "&lt;";
    assert (q + v)[1] == 'l';
    AbsentAllBetween(u, q, v, "&amp;", "&");
    AbsentAllBetween(u, q, v, "&nbsp;", " ");
    ReplaceAllSplit(u, q, v, "<");
    AbsentAll(v, q, "<");
    var g := u + "<" + v;
    AbsentAll(g, "&gt;", ">");
    DecodeStages(u + q + v, u + q + v, u + q + v, g, g);
    DecodeQuotesJoin(u, '<', v);
  }

  lemma DecodeGt(u: string, v: string)
    requires PlainText(u) && PlainText(v)
    ensures DecodeEntities(u + "&gt;" + v) == u + ">" + v
  {
    var q := "&gt;";
    assert (q + v)[1] == 'g';
    AbsentAllBetween(u, q, v, "&amp;", "&");
    AbsentAllBetween(u, q, v, "&nbsp;", " ");
    AbsentAllBetween(u, q, v, "&lt;", "<");
    ReplaceAllSplit(u, q, v, ">");
    AbsentAll(v, q, ">");
    DecodeStages(u + q + v, u + q + v, u + q + v, u + q + v, u + ">" + v);
    DecodeQuotesJoin(u, '>', v);
  }

  /** `&amp;`, `&nbsp;`, `&lt;` and `&gt;` between plain texts with no ";" become "&", " ", "<" and ">". */
  lemma RemoveHtmlEntities(u: string, v: string)
    requires PlainText(u) && PlainText(v) && ';' !in u && ';' !in v
    ensures RemoveHtmlTagsAndEscapes(u + "&amp;" + v) == u + "&" + v
    ensures RemoveHtmlTagsAndEscapes(u + "&nbsp;" + v) == u + " " + v
    ensures RemoveHtmlTagsAndEscapes(u + "&lt;" + v) == u + "<" + v
    ensures RemoveHtmlTagsAndEscapes(u + "&gt;" + v) == u + ">" + v
  {
    MarkupPlain(u + "&amp;" + v);
    MarkupPlain(u + "&nbsp;" + v);
    MarkupPlain(u + "&lt;" + v);
    MarkupPlain(u + "&gt;" + v);
    DecodeAmp(u, v);
    DecodeNbsp(u, v);
    DecodeLt(u, v);
    DecodeGt(u, v);
  }

  // ----- what removeEuroStyleText keeps and drops ------------------------------------------

  /** A line that begins with neither "+" nor "x" in any case is no marked note. */
  lemma UnmarkedLine(s: string, bs: seq<string>)
    requires s == [] || (s[0] != '+' && Lower(s[0]) != 'x')
    ensures DotStarAt(s, ["+", "x"], bs, 0, true).None?
  {
    if s != [] {
      assert ToLower(s)[..1][0] == Lower(s[0]);
    }
    NoStartDotStarAt(s, ["+", "x"], bs, 0, true);
  }

  /** No dropped note line: the text is not marked and ends in none of the dropped endings. */
  lemma DropNoteLinesPlain(l: string)
    requires l == [] || (l[0] != '+' && Lower(l[0]) != 'x')
    requires !EndsInAnyCI(l, [" battleground", " battlegrounds"])
    requires !EndsInAnyCI(l, [" battleground site"]) && !EndsInAnyCI(l, [" persona"])
    ensures DropNoteLines(l) == l
  {
    UnmarkedLine(l, ["effect"]);
    UnmarkedLine(l, ["location"]);
    UnmarkedLine(l, ["sites", "site"]);
  }

  /** With no "+", no "+N effect" count is removed. */
  lemma {:induction false} PlusFree(s: string)
    requires '+' !in s
    ensures RemovePlusEffects(s) == s
    decreases |s|
  {
    if s != [] {
      assert forall q :: 0 <= q < |s| ==> s[q] in s;
      assert PlusEffectAt(s).None?;
      PlusFree(s[1..]);
      assert [s[0]] + s[1..] == s;
    }
  }

  /** Every span rule needs a "(": text without one is left alone by all of them. */
  lemma EuroSpansUntouched(s: string)
    requires '(' !in s
    ensures forall k :: 0 <= k < |EuroSpans| ==> !Matches(EuroSpans[k], s)
  {
    forall k | 0 <= k < |EuroSpans|
      ensures !Matches(EuroSpans[k], s)
    {
      if k < 3 {
        EuroSpansHeadUntouched(s, k);
      } else {
        EuroSpansTailUntouched(s, k);
      }
    }
  }

  lemma EuroSpansHeadUntouched(s: string, k: nat)
    requires '(' !in s && k < 3
    ensures !Matches(EuroSpans[k], s)
  {
    if k == 0 {
      TotalSpanUntouched(s);
      assert EuroSpans[0] == Span(["("], [" total)"], "", false);
    } else if k == 1 {
      NonVirtualUntouched(s);
      assert EuroSpans[1] == First("(non virtual is recommended)", "");
    } else {
      LocationsSpanUntouched(s);
      assert EuroSpans[2] == Span(["("], ["locations)", "location)"], "", true);
    }
  }

  lemma TotalSpanUntouched(s: string)
    requires '(' !in s
    ensures !Matches(Span(["("], [" total)"], "", false), s)
  {
    AbsentDotStarFrom(s, ["("], [" total)"], 0, false);
  }

  lemma NonVirtualUntouched(s: string)
    requires '(' !in s
    ensures !Matches(First("(non virtual is recommended)", ""), s)
  {
    AbsentCharIndexOf(s, "(non virtual is recommended)", '(');
  }

  lemma LocationsSpanUntouched(s: string)
    requires '(' !in s
    ensures !Matches(Span(["("], ["locations)", "location)"], "", true), s)
  {
    AbsentDotStarFrom(s, ["("], ["locations)", "location)"], 0, true);
  }

  lemma EuroSpansTailUntouched(s: string, k: nat)
    requires '(' !in s && 3 <= k < 6
    ensures !Matches(EuroSpans[k], s)
  {
    if k == 3 {
      VirtualSpanUntouched(s, "Anger, Fear, Aggression (V)");
      assert EuroSpans[3] == Span(["Anger, Fear, Aggression (V)"], [""], "Anger, Fear, Aggression (V)", false);
    } else if k == 4 {
      VirtualSpanUntouched(s, "Knowledge And Defense (V)");
      assert EuroSpans[4] == Span(["Knowledge And Defense (V)"], [""], "Knowledge And Defense (V)", false);
    } else {
      JabbasPrizeUntouched(s);
      assert EuroSpans[5] == First("Jabba's Prize (V)", "");
    }
  }

  lemma VirtualSpanUntouched(s: string, name: string)
    requires '(' !in s && '(' in name
    ensures !Matches(Span([name], [""], name, false), s)
  {
    AbsentCharDotStarFrom(s, name, [""], '(');
  }

  lemma JabbasPrizeUntouched(s: string)
    requires '(' !in s
    ensures !Matches(First("Jabba's Prize (V)", ""), s)
  {
    AbsentCharIndexOf(s, "Jabba's Prize (V)", '(');
  }

  /** With no "+" and no "(", the counts and spans change nothing. */
  lemma DropNotesPlain(f: string)
    requires '+' !in f && '(' !in f
    ensures DropNotes(f) == f
  {
    PlusFree(f);
    EuroSpansUntouched(f);
    ApplyAllUntouched(f, EuroSpans);
  }

  /** With no "(" and no "[", nothing is bracketed. */
  lemma DropBracketedPlain(g: string)
    requires '(' !in g && '[' !in g
    ensures DropBracketed(g) == g
  {
    assert forall q :: 0 <= q < |g| ==> g[q] in g;
    AbsentAll(g, "()", "");
  }

  /**
   * An ordinary card line, with no "+", "(" or "[", not beginning with "x"
   * and not ending in a dropped ending, is kept as it is.
   */
  lemma EuroPlainLine(l: string)
    requires '+' !in l && '(' !in l && '[' !in l && (l == [] || Lower(l[0]) != 'x')
    requires !EndsInAnyCI(l, [" battleground", " battlegrounds"])
    requires !EndsInAnyCI(l, [" battleground site"]) && !EndsInAnyCI(l, [" persona"])
    ensures RemoveEuroStyleText(l) == l
  {
    if l != [] {
      assert l[0] in l;
    }
    DropNoteLinesPlain(l);
    DropNotesPlain(l);
    DropBracketedPlain(l);
  }

  /** "effect", in any case, after the first character of a one-line text is found by the greedy `.*effect`. */
  lemma EffectFits(l: string, j: nat)
    requires forall k :: 0 <= k < |l| ==> !IsLineTerminator(l[k])
    requires 1 <= j && OccursAtCase(l, "effect", j, true)
    ensures SegEnd(l, 1) == |l| && LastFit(l, ["effect"], 1, |l|, |l|, true).Some?
  {
    LastFitFinds(l, ["effect"], 1, |l|, |l|, true, j, "effect");
  }

  /** A one-line note beginning with "+" or "x" and mentioning "effect" later on is marked. */
  lemma MarkedEffectLine(l: string, j: nat)
    requires l != [] && (l[0] == '+' || Lower(l[0]) == 'x')
    requires forall k :: 0 <= k < |l| ==> !IsLineTerminator(l[k])
    requires 1 <= j && OccursAtCase(l, "effect", j, true)
    ensures DotStarAt(l, ["+", "x"], ["effect"], 0, true).Some?
    ensures SegEnd(l, 0) == |l|
  {
    EffectFits(l, j);
    assert ToLower(l)[..1] == [Lower(l[0])];
    assert ToLower("+") == "+" && ToLower("x") == "x";
    if l[0] == '+' {
      assert OccursAtCase(l, "+", 0, true);
    } else {
      assert !OccursAtCase(l, "+", 0, true);
      assert OccursAtCase(l, "x", 0, true);
      assert DotStarAt(l, ["+", "x"], ["effect"], 0, true) == DotStarAt(l, ["x"], ["effect"], 0, true);
    }
  }

  /** A note line such as "+2 effects" or "x3 Effect" is removed entirely. */
  lemma EuroEffectLine(l: string, j: nat)
    requires l != [] && (l[0] == '+' || Lower(l[0]) == 'x')
    requires forall k :: 0 <= k < |l| ==> !IsLineTerminator(l[k])
    requires 1 <= j && OccursAtCase(l, "effect", j, true)
    ensures RemoveEuroStyleText(l) == ""
  {
    MarkedEffectLine(l, j);
    assert DropMarkedLine(l, "effect") == [];
    UnmarkedLine([], ["location"]);
    UnmarkedLine([], ["sites", "site"]);
    assert DropNoteLines(l) == [];
    DropNotesPlain([]);
    DropBracketedPlain([]);
  }

  /** `p` is not at the end of `s` when their last characters differ. */
  lemma NotEndingIn(s: string, p: string)
    requires s != [] && p != [] && s[|s| - 1] != p[|p| - 1]
    ensures !EndsWith(s, p)
  {
    EndsWithIff(s, p);
    if |p| <= |s| {
      assert s[|s| - |p|..|s|][|p| - 1] != p[|p| - 1];
    }
  }

  /** A text ends in none of `suffixes` when its last character is, in any case, none of theirs. */
  lemma EndsInNone(l: string, suffixes: seq<string>)
    requires l != []
    requires forall k :: 0 <= k < |suffixes| ==>
      suffixes[k] != [] && Lower(suffixes[k][|suffixes[k]| - 1]) != Lower(l[|l| - 1])
    ensures !EndsInAnyCI(l, suffixes)
  {
    forall k | 0 <= k < |suffixes|
      ensures !EndsWith(ToLower(l), ToLower(suffixes[k]))
    {
      NotEndingIn(ToLower(l), ToLower(suffixes[k]));
    }
  }

  /** A line ending in ")" ends in none of the dropped endings. */
  lemma ParenEnding(l: string)
    requires l != [] && l[|l| - 1] == ')'
    ensures !EndsInAnyCI(l, [" battleground", " battlegrounds"])
    ensures !EndsInAnyCI(l, [" battleground site"]) && !EndsInAnyCI(l, [" persona"])
  {
    EndsInNone(l, [" battleground", " battlegrounds"]);
    EndsInNone(l, [" battleground site"]);
    EndsInNone(l, [" persona"]);
  }

  /** No match of the first span rule begins inside `u`. */
  lemma TotalSpanSkip(u: string, w: string)
    requires '(' !in u
    ensures var l := u + "(" + w + " total)";
      DotStarFrom(l, ["("], [" total)"], 0, false) == DotStarFrom(l, ["("], [" total)"], |u|, false)
  {
    var l := u + "(" + w + " total)";
    forall q | 0 <= q < |u|
      ensures DotStarAt(l, ["("], [" total)"], q, false).None?
    {
      assert l[q..q + 1][0] == u[q] && u[q] in u;
      NoStartDotStarAt(l, ["("], [" total)"], q, false);
    }
    DotStarFromSkip(l, ["("], [" total)"], 0, |u|, false);
  }

  /** At the "(", the greedy `.*` runs to the " total)" that ends the line. */
  lemma TotalSpanAt(u: string, w: string)
    requires forall k :: 0 <= k < |w| ==> !IsLineTerminator(w[k])
    ensures var l := u + "(" + w + " total)";
      DotStarAt(l, ["("], [" total)"], |u|, false) == Some(|l|)
  {
    var l := u + "(" + w + " total)";
    assert l[|u|..|u| + 1] == "(";
    forall k | |u| + 1 <= k < |l|
      ensures !IsLineTerminator(l[k])
    {
      if k < |u| + 1 + |w| {
        assert l[k] == w[k - |u| - 1];
      }
    }
    assert SegEnd(l, |u| + 1) == |l|;
    assert l[|l| - 7..|l|] == " total)";
    LastFitTop(l, " total)", |u| + 1, |l|, |l|, false);
  }

  /** The first span rule removes everything from the "(" after `u` to the end of the line. */
  lemma TotalSpan(u: string, w: string)
    requires '(' !in u && forall k :: 0 <= k < |w| ==> !IsLineTerminator(w[k])
    ensures var l := u + "(" + w + " total)";
      Apply(EuroSpans[0], l) == u
  {
    var l := u + "(" + w + " total)";
    TotalSpanSkip(u, w);
    TotalSpanAt(u, w);
    assert DotStarFrom(l, ["("], [" total)"], 0, false) == Some((|u|, |l|));
    assert l[..|u|] + "" + l[|l|..] == u;
  }

  /** What the lemma below needs to know of a line with a "(… total)" tail. */
  lemma TotalLineChars(u: string, w: string)
    requires '+' !in u && '+' !in w && (u == [] || Lower(u[0]) != 'x')
    ensures var l := u + "(" + w + " total)";
      && '+' !in l && l != [] && l[|l| - 1] == ')'
      && l[0] != '+' && Lower(l[0]) != 'x'
  {
    var l := u + "(" + w + " total)";
    NotInConcat(u + "(", w, '+');
    NotInConcat(u + "(" + w, " total)", '+');
    if u != [] {
      assert l[0] == u[0] && u[0] in u;
    }
  }

  /** A "(… total)" count at the end of a line is removed with everything after the "(". */
  lemma EuroTotalTail(u: string, w: string)
    requires '+' !in u && '(' !in u && '[' !in u && (u == [] || Lower(u[0]) != 'x')
    requires '+' !in w && forall k :: 0 <= k < |w| ==> !IsLineTerminator(w[k])
    ensures RemoveEuroStyleText(u + "(" + w + " total)") == u
  {
    var l := u + "(" + w + " total)";
    TotalLineKept(u, w);
    TotalNotesDropped(u, w);
    DropBracketedPlain(u);
  }

  /** No note-line rule touches a line ending in "(… total)". */
  lemma TotalLineKept(u: string, w: string)
    requires '+' !in u && (u == [] || Lower(u[0]) != 'x') && '+' !in w
    ensures var l := u + "(" + w + " total)"; DropNoteLines(l) == l && '+' !in l
  {
    var l := u + "(" + w + " total)";
    TotalLineChars(u, w);
    ParenEnding(l);
    DropNoteLinesPlain(l);
  }

  /** The "(… total)" span rule cuts the count off, and the later span rules find nothing. */
  lemma TotalNotesDropped(u: string, w: string)
    requires '+' !in u && '(' !in u && '+' !in w && forall k :: 0 <= k < |w| ==> !IsLineTerminator(w[k])
    ensures DropNotes(u + "(" + w + " total)") == u
  {
    var l := u + "(" + w + " total)";
    assert '+' !in l by {
      assert l == u + ("(" + w + " total)");
      assert '+' !in "(" + w + " total)";
    }
    PlusFree(l);
    TotalSpansApplied(u, w);
  }

  lemma TotalSpansApplied(u: string, w: string)
    requires '(' !in u && forall k :: 0 <= k < |w| ==> !IsLineTerminator(w[k])
    ensures ApplyAll(u + "(" + w + " total)", EuroSpans) == u
  {
    var l := u + "(" + w + " total)";
    TotalSpan(u, w);
    EuroSpansUntouched(u);
    ApplyAllFirstOnly(l, EuroSpans, u);
  }

  /** The first four lines of the plain text are the title, the date, the URL and a blank line. */
  lemma AssembleHeader(title: string, date: Option<string>, url: string, body: string)
    requires '\n' !in title && '\n' !in DateText(date) && '\n' !in url
    ensures var lines := Split(Assemble(title, date, url, body), '\n');
      |lines| >= 4 && lines[0] == title && lines[1] == DateText(date) && lines[2] == url && lines[3] == ""
  {
    var d := DateText(date);
    var s3 := [] + ['\n'] + (body + "\n");
    var s2 := url + ['\n'] + s3;
    var s1 := d + ['\n'] + s2;
    assert Assemble(title, date, url, body) == title + ['\n'] + s1;
    SplitHeader(Assemble(title, date, url, body), title, d, url, body + "\n", '\n');
  }

  /** Three lines without `sep` and an empty one open the split text `t`. */
  lemma SplitHeader(t: string, a: string, b: string, c: string, rest: string, sep: char)
    requires sep !in a && sep !in b && sep !in c
    requires t == a + [sep] + (b + [sep] + (c + [sep] + ([] + [sep] + rest)))
    ensures var l := Split(t, sep); |l| >= 4 && l[0] == a && l[1] == b && l[2] == c && l[3] == []
  {
    var s3 := [] + [sep] + rest;
    var s2 := c + [sep] + s3;
    var s1 := b + [sep] + s2;
    var l, l1, l2, l3 := Split(t, sep), Split(s1, sep), Split(s2, sep), Split(s3, sep);
    SplitFirstTail(t, a, sep, s1);
    SplitFirstTail(s1, b, sep, s2);
    SplitFirstTail(s2, c, sep, s3);
    SplitFirstTail(s3, [], sep, rest);
    assert l[1] == l1[0] && l[2] == l1[1] == l2[0] && l[3] == l1[2] == l2[1] == l3[0];
  }

  /** `SplitFirst` for a text `t` known to be `a`, the separator, then `rest`. */
  lemma SplitFirstTail(t: string, a: string, sep: char, rest: string)
    requires sep !in a && t == a + [sep] + rest
    ensures |Split(t, sep)| == 1 + |Split(rest, sep)|
    ensures Split(t, sep)[0] == a && Split(t, sep)[1..] == Split(rest, sep)
  {
    SplitFirst(a, sep, rest);
  }

  // ----- what disambiguateCardsWithSameTitles keeps and rewrites ----------------------------

  /**
   * The body `plaintextFromRawContent` returns, the disambiguated
   * `SingleSpaced(NormalizedLines(doc, ...))` that is `PlainBody`, never has
   * three "\n" in a row, whatever the normalized lines `c` are.
   */
  lemma DisambiguatedSingleSpaced(c: string)
    ensures NoTripleNewline(ApplyAll(SingleSpaced(c), Disambiguations))
  {
    DisambiguationsNoTripleNewline(SingleSpaced(c));
  }

  /** The disambiguations never make three "\n" in a row. */
  lemma DisambiguationsNoTripleNewline(s: string)
    requires NoTripleNewline(s)
    ensures NoTripleNewline(ApplyAll(s, Disambiguations))
  {
    DisambiguationsShape();
    ApplyAllNoTripleNewline(s, Disambiguations);
  }

  /**
   * A rule that replaces one match by a non-empty text without "\n": a literal
   * pattern, or `/(A).*(B)/`, whose `.*` never crosses a line end.
   */
  predicate KeepsLines(rule: Rule)
  {
    (rule.First? || rule.Span?) && rule.r != [] && '\n' !in rule.r
  }

  /** Every pattern of `rule` holds "(" at or after index `n`. */
  predicate ParenFrom(rule: Rule, n: nat)
  {
    && (rule.First? ==> n <= |rule.p| && '(' in rule.p[n..])
    && (rule.Span? ==> forall k :: 0 <= k < |rule.heads| ==> n <= |rule.heads[k]| && '(' in rule.heads[k][n..])
  }

  /** The shape of every rule of `disambiguateCardsWithSameTitles`: a title, then "(" and more. */
  predicate DisambiguationRule(rule: Rule)
  {
    KeepsLines(rule) && ParenFrom(rule, 6)
  }

  lemma DisambiguationsShape()
    ensures forall k :: 0 <= k < |Disambiguations| ==> DisambiguationRule(Disambiguations[k])
  {
    forall k | 0 <= k < |Disambiguations|
      ensures DisambiguationRule(Disambiguations[k])
    {
      if k < 6 {
        DisambiguationsShapeA(k);
      } else if k < 12 {
        DisambiguationsShapeB(k);
      } else {
        DisambiguationsShapeC(k);
      }
    }
  }

  lemma Disambiguation0Shape() ensures DisambiguationRule(Span(["Sense (Pre"], [")"], "Sense", true)) { Disambiguation0OneLine(); }
  lemma Disambiguation0OneLine() ensures '\n' !in "Sense" { }
  lemma Disambiguation1Shape() ensures DisambiguationRule(Span(["Alter (Pre"], [")"], "Alter", true)) { Disambiguation1OneLine(); }
  lemma Disambiguation1OneLine() ensures '\n' !in "Alter" { }
  lemma Disambiguation2Shape() ensures DisambiguationRule(Span(["Control (Dag"], [")"], "Control", true)) { Disambiguation2OneLine(); }
  lemma Disambiguation2OneLine() ensures '\n' !in "Control" { }
  lemma Disambiguation3Shape() ensures DisambiguationRule(Span(["Tatooine (Pre"], [")"], "Tatooine", true)) { Disambiguation3OneLine(); }
  lemma Disambiguation3OneLine() ensures '\n' !in "Tatooine" { }
  lemma Disambiguation4Shape() ensures DisambiguationRule(Span(["Coruscant (S"], [")"], "Coruscant", true)) { Disambiguation4OneLine(); }
  lemma Disambiguation4OneLine() ensures '\n' !in "Coruscant" { }
  lemma Disambiguation5Shape() ensures DisambiguationRule(Span(["Obi-Wan's Lightsaber (Pre"], [")"], "Obi-Wan's Lightsaber", true)) { Disambiguation5OneLine(); }
  lemma Disambiguation5OneLine() ensures '\n' !in "Obi-Wan's Lightsaber" { }
  lemma Disambiguation6Shape() ensures DisambiguationRule(Span(["Bib Fortuna (J"], [")"], "Bib Fortuna", true)) { Disambiguation6OneLine(); }
  lemma Disambiguation6OneLine() ensures '\n' !in "Bib Fortuna" { }
  lemma Disambiguation7Shape() ensures DisambiguationRule(Span(["Sense (Ep", "Sense (Cor"], [")"], "Sense (Episode I)", true)) { Disambiguation7OneLine(); }
  lemma Disambiguation7OneLine() ensures '\n' !in "Sense (Episode I)" { }
  lemma Disambiguation8Shape() ensures DisambiguationRule(Span(["Alter (Ep", "Alter (Cor"], [")"], "Alter (Episode I)", true)) { Disambiguation8OneLine(); }
  lemma Disambiguation8OneLine() ensures '\n' !in "Alter (Episode I)" { }
  lemma Disambiguation9Shape() ensures DisambiguationRule(Span(["Control (Ep", "Control (Cor"], [")"], "Control (Episode I)", true)) { Disambiguation9OneLine(); }
  lemma Disambiguation9OneLine() ensures '\n' !in "Control (Episode I)" { }
  lemma Disambiguation10Shape() ensures DisambiguationRule(Span(["Tatooine (Ep", "Tatooine (Cor"], [")"], "Tatooine (Episode I)", true)) { Disambiguation10OneLine(); }
  lemma Disambiguation10OneLine() ensures '\n' !in "Tatooine (Episode I)" { }
  lemma Disambiguation11Shape() ensures DisambiguationRule(Span(["Coruscant (Ep", "Coruscant (Cor"], [")"], "Coruscant (Episode I)", true)) { Disambiguation11OneLine(); }
  lemma Disambiguation11OneLine() ensures '\n' !in "Coruscant (Episode I)" { }
  lemma Disambiguation12Shape() ensures DisambiguationRule(Span(["Obi-Wan's Lightsaber (e", "Obi-Wan's Lightsaber (r"], [")"], "Obi-Wan's Lightsaber (Episode I)", true)) { Disambiguation12OneLine(); }
  lemma Disambiguation12OneLine() ensures '\n' !in "Obi-Wan's Lightsaber (Episode I)" { }
  lemma Disambiguation13Shape() ensures DisambiguationRule(Span(["Bib Fortuna (e", "Bib Fortuna (r"], [")"], "Bib Fortuna (Episode I)", true)) { Disambiguation13OneLine(); }
  lemma Disambiguation13OneLine() ensures '\n' !in "Bib Fortuna (Episode I)" { }
  lemma Disambiguation14Shape() ensures DisambiguationRule(First("Boba Fett (SE)", "Boba Fett (Special Edition")) { Disambiguation14OneLine(); }
  lemma Disambiguation14OneLine() ensures '\n' !in "Boba Fett (Special Edition" { }
  lemma Disambiguation15Shape() ensures DisambiguationRule(First("Boba Fett (CC)", "Boba Fett (Cloud City")) { Disambiguation15OneLine(); }
  lemma Disambiguation15OneLine() ensures '\n' !in "Boba Fett (Cloud City" { }
  lemma Disambiguation16Shape() ensures DisambiguationRule(First("Alter (V)", "Alter (Premiere) (V)")) { Disambiguation16OneLine(); }
  lemma Disambiguation16OneLine() ensures '\n' !in "Alter (Premiere) (V)" { }

  lemma DisambiguationsShapeA(k: nat)
    requires k < 6
    ensures DisambiguationRule(Disambiguations[k])
  {
    if k == 0 {
      Disambiguation0Shape();
      assert Disambiguations[0] == Span(["Sense (Pre"], [")"], "Sense", true);
    } else if k == 1 {
      Disambiguation1Shape();
      assert Disambiguations[1] == Span(["Alter (Pre"], [")"], "Alter", true);
    } else if k == 2 {
      Disambiguation2Shape();
      assert Disambiguations[2] == Span(["Control (Dag"], [")"], "Control", true);
    } else if k == 3 {
      Disambiguation3Shape();
      assert Disambiguations[3] == Span(["Tatooine (Pre"], [")"], "Tatooine", true);
    } else if k == 4 {
      Disambiguation4Shape();
      assert Disambiguations[4] == Span(["Coruscant (S"], [")"], "Coruscant", true);
    } else {
      Disambiguation5Shape();
      assert Disambiguations[5] == Span(["Obi-Wan's Lightsaber (Pre"], [")"], "Obi-Wan's Lightsaber", true);
    }
  }

  lemma DisambiguationsShapeB(k: nat)
    requires 6 <= k < 12
    ensures DisambiguationRule(Disambiguations[k])
  {
    if k == 6 {
      Disambiguation6Shape();
      assert Disambiguations[6] == Span(["Bib Fortuna (J"], [")"], "Bib Fortuna", true);
    } else if k == 7 {
      Disambiguation7Shape();
      assert Disambiguations[7] == Span(["Sense (Ep", "Sense (Cor"], [")"], "Sense (Episode I)", true);
    } else if k == 8 {
      Disambiguation8Shape();
      assert Disambiguations[8] == Span(["Alter (Ep", "Alter (Cor"], [")"], "Alter (Episode I)", true);
    } else if k == 9 {
      Disambiguation9Shape();
      assert Disambiguations[9] == Span(["Control (Ep", "Control (Cor"], [")"], "Control (Episode I)", true);
    } else if k == 10 {
      Disambiguation10Shape();
      assert Disambiguations[10] == Span(["Tatooine (Ep", "Tatooine (Cor"], [")"], "Tatooine (Episode I)", true);
    } else {
      Disambiguation11Shape();
      assert Disambiguations[11] == Span(["Coruscant (Ep", "Coruscant (Cor"], [")"], "Coruscant (Episode I)", true);
    }
  }

  lemma DisambiguationsShapeC(k: nat)
    requires 12 <= k < 17
    ensures DisambiguationRule(Disambiguations[k])
  {
    if k == 12 {
      Disambiguation12Shape();
      assert Disambiguations[12] == Span(["Obi-Wan's Lightsaber (e", "Obi-Wan's Lightsaber (r"], [")"], "Obi-Wan's Lightsaber (Episode I)", true);
    } else if k == 13 {
      Disambiguation13Shape();
      assert Disambiguations[13] == Span(["Bib Fortuna (e", "Bib Fortuna (r"], [")"], "Bib Fortuna (Episode I)", true);
    } else if k == 14 {
      Disambiguation14Shape();
      assert Disambiguations[14] == First("Boba Fett (SE)", "Boba Fett (Special Edition");
    } else if k == 15 {
      Disambiguation15Shape();
      assert Disambiguations[15] == First("Boba Fett (CC)", "Boba Fett (Cloud City");
    } else {
      Disambiguation16Shape();
      assert Disambiguations[16] == First("Alter (V)", "Alter (Premiere) (V)");
    }
  }

  /** `disambiguateCardsWithSameTitles` leaves a text without "(" as it is. */
  lemma DisambiguationsUntouched(s: string)
    requires '(' !in s
    ensures ApplyAll(s, Disambiguations) == s
  {
    DisambiguationsMiss(s);
    ApplyAllUntouched(s, Disambiguations);
  }

  /** "Sense (Premiere)" loses its set name: rule 0 rewrites it, and no later rule touches "Sense". */
  lemma DisambiguateSensePremiere(s: string, t: string)
    requires Spelled(s, "Sense (Premiere)") && Spelled(t, "Sense")
    ensures ApplyAll(s, Disambiguations) == t
  {
    SensePremiereFirst(s, t);
    assert |t| == 5;
    DisambiguationsMiss(t);
    ApplyAllFirstOnly(s, Disambiguations, t);
  }

  /** "Sense (Coruscant)" is the Episode I card: rules 0 to 6 miss it, rule 7 rewrites it, and no later rule touches the result. */
  lemma DisambiguateSenseCoruscant(s: string, t: string)
    requires Spelled(s, "Sense (Coruscant)") && Spelled(t, "Sense (Episode I)")
    ensures ApplyAll(s, Disambiguations) == t
  {
    SenseCoruscantMisses(s);
    SenseCoruscantFires(s, t);
    SenseEpisodeIMisses(t);
    ApplyAllOneFires(s, Disambiguations, 7, t);
  }

  lemma SenseCoruscantLine(s: string)
    requires Spelled(s, "Sense (Coruscant)")
    ensures |s| == 17 && OccursAt(s, "Sense (Cor", 0) && OccursAt(s, ")", 16)
    ensures forall k :: 0 <= k < |s| ==> !IsLineTerminator(s[k])
    ensures forall j :: 0 <= j < |s| && j != 6 ==> s[j] != '('
    ensures Lower(s[0]) == 's' && Lower(s[7]) == 'c'
  {
    SpelledSame(s, "Sense (Coruscant)");
  }

  lemma SenseEpisodeILine(t: string)
    requires Spelled(t, "Sense (Episode I)")
    ensures |t| == 17 && Lower(t[0]) == 's'
    ensures forall j :: 0 <= j < |t| && j != 6 ==> t[j] != '('
  {
    SpelledSame(t, "Sense (Episode I)");
  }

  lemma SenseCoruscantMisses(s: string)
    requires Spelled(s, "Sense (Coruscant)")
    ensures forall k :: 0 <= k < 7 ==> !Matches(Disambiguations[k], s)
  {
    SenseCoruscantLine(s);
    forall k | 0 <= k < 7
      ensures !Matches(Disambiguations[k], s)
    {
      if k == 0 {
        SenseCoruscantMissesRule0(s);
      } else if k == 1 {
        SenseCoruscantMissesRule1(s);
      } else {
        DisambiguationsShape();
        DisambiguationsLateA(k);
        ParenRuleNoMatch(Disambiguations[k], s, 7);
      }
    }
  }

  /** "Sense (Pre" would have to start at 0, where "Sense (C" differs from it. */
  lemma SenseCoruscantMissesRule0(s: string)
    requires Spelled(s, "Sense (Coruscant)")
    ensures !Matches(Disambiguations[0], s)
  {
    SenseCoruscantLine(s);
    Disambiguation0Is();
    ParenSixMissOne(s, "Sense (Pre", "Sense", 7);
  }



  lemma SenseCoruscantMissesRule1(s: string)
    requires Spelled(s, "Sense (Coruscant)")
    ensures !Matches(Disambiguations[1], s)
  {
    SenseCoruscantLine(s);
    Disambiguation1Is();
    ParenSixMissOne(s, "Alter (Pre", "Alter", 0);
  }



  lemma SenseCoruscantFires(s: string, t: string)
    requires Spelled(s, "Sense (Coruscant)") && Spelled(t, "Sense (Episode I)")
    ensures Apply(Disambiguations[7], s) == t
  {
    SenseCoruscantLine(s);
    SpelledSame(t, "Sense (Episode I)");
    Disambiguation7Is();
    SpanTwoWholeLine(s, "Sense (Ep", "Sense (Cor", 1, "Sense (Episode I)");
  }



  lemma Disambiguation0Is() ensures Disambiguations[0] == Span(["Sense (Pre"], [")"], "Sense", true) { }
  lemma Disambiguation1Is() ensures Disambiguations[1] == Span(["Alter (Pre"], [")"], "Alter", true) { }
  lemma Disambiguation7Is() ensures Disambiguations[7] == Span(["Sense (Ep", "Sense (Cor"], [")"], "Sense (Episode I)", true) { }
  lemma Disambiguation8Is() ensures Disambiguations[8] == Span(["Alter (Ep", "Alter (Cor"], [")"], "Alter (Episode I)", true) { }
  lemma Disambiguation16Is() ensures Disambiguations[16] == First("Alter (V)", "Alter (Premiere) (V)") { }

  /** A one-line text that starts with one of the heads and ends in ")" is wholly replaced. */
  lemma SpanWholeLine(s: string, heads: seq<string>, k: nat, r: string)
    requires k < |heads| && OccursAt(s, heads[k], 0)
    requires s != [] && OccursAt(s, ")", |s| - 1)
    requires forall i :: 0 <= i < |s| ==> !IsLineTerminator(s[i])
    requires forall i :: 0 <= i < |heads| ==> |heads[i]| + 1 <= |s|
    ensures ReplaceDotStar(s, heads, [")"], r, true) == r
  {
    OccursAtAnyCase(s, heads[k], 0, true);
    OccursAtAnyCase(s, ")", |s| - 1, true);
    DotStarWholeLine(s, heads, ")", r, true);
  }

  /** A text whose only "(" is at index 6 misses every head with "(" there that differs from it at `j`. */
  lemma ParenSixMiss(s: string, heads: seq<string>, bs: seq<string>, j: nat, ci: bool)
    requires forall i :: 0 <= i < |s| && i != 6 ==> s[i] != '('
    requires j < |s|
    requires forall k :: 0 <= k < |heads| ==> 6 < |heads[k]| && j < |heads[k]| && heads[k][6] == '('
    requires forall k :: 0 <= k < |heads| ==> Lower(s[j]) != Lower(heads[k][j])
    ensures DotStarFrom(s, heads, bs, 0, ci).None?
  {
    forall k | 0 <= k < |heads|
      ensures !OccursAtCase(s, heads[k], 0, ci)
    {
      MismatchAt(s, heads[k], 0, j, ci);
    }
    PinnedDotStarFrom(s, heads, bs, 6, 6, '(', ci);
  }
  /** `ParenSixMiss` for a rule with one head: the rule does not match. */
  lemma ParenSixMissOne(s: string, h: string, r: string, j: nat)
    requires forall i :: 0 <= i < |s| && i != 6 ==> s[i] != '('
    requires j < |s| && 6 < |h| && j < |h| && h[6] == '('
    requires Lower(s[j]) != Lower(h[j])
    ensures !Matches(Span([h], [")"], r, true), s)
  {
    ParenSixMiss(s, [h], [")"], j, true);
  }

  /** `ParenSixMiss` for a rule with two heads: the rule does not match. */
  lemma ParenSixMissTwo(s: string, h0: string, h1: string, r: string, j: nat)
    requires forall i :: 0 <= i < |s| && i != 6 ==> s[i] != '('
    requires j < |s| && 6 < |h0| && j < |h0| && h0[6] == '(' && 6 < |h1| && j < |h1| && h1[6] == '('
    requires Lower(s[j]) != Lower(h0[j]) && Lower(s[j]) != Lower(h1[j])
    ensures !Matches(Span([h0, h1], [")"], r, true), s)
  {
    ParenSixMiss(s, [h0, h1], [")"], j, true);
  }

  /** `SpanWholeLine` for a rule with one head. */
  lemma SpanOneWholeLine(s: string, h: string, r: string)
    requires OccursAt(s, h, 0) && |h| + 1 <= |s| && OccursAt(s, ")", |s| - 1)
    requires forall i :: 0 <= i < |s| ==> !IsLineTerminator(s[i])
    ensures Apply(Span([h], [")"], r, true), s) == r
  {
    SpanWholeLine(s, [h], 0, r);
  }

  /** `SpanWholeLine` for a rule with two heads, the `k`th of which starts the text. */
  lemma SpanTwoWholeLine(s: string, h0: string, h1: string, k: nat, r: string)
    requires k < 2 && OccursAt(s, [h0, h1][k], 0)
    requires |h0| + 1 <= |s| && |h1| + 1 <= |s| && OccursAt(s, ")", |s| - 1)
    requires forall i :: 0 <= i < |s| ==> !IsLineTerminator(s[i])
    ensures Apply(Span([h0, h1], [")"], r, true), s) == r
  {
    SpanWholeLine(s, [h0, h1], k, r);
  }


  lemma SenseEpisodeIMisses(t: string)
    requires Spelled(t, "Sense (Episode I)")
    ensures forall k :: 7 < k < |Disambiguations| ==> !Matches(Disambiguations[k], t)
  {
    SenseEpisodeILine(t);
    forall k | 7 < k < |Disambiguations|
      ensures !Matches(Disambiguations[k], t)
    {
      if k == 8 {
        SenseEpisodeIMissesRule8(t);
      } else if k == 16 {
        SenseEpisodeIMissesRule16(t);
      } else {
        DisambiguationsShape();
        DisambiguationsLateB(k);
        ParenRuleNoMatch(Disambiguations[k], t, 7);
      }
    }
  }

  lemma SenseEpisodeIMissesRule8(t: string)
    requires Spelled(t, "Sense (Episode I)")
    ensures !Matches(Disambiguations[8], t)
  {
    SenseEpisodeILine(t);
    Disambiguation8Is();
    ParenSixMissTwo(t, "Alter (Ep", "Alter (Cor", "Alter (Episode I)", 0);
  }



  lemma SenseEpisodeIMissesRule16(t: string)
    requires Spelled(t, "Sense (Episode I)")
    ensures !Matches(Disambiguations[16], t)
  {
    Disambiguation16Is();
    SenseEpisodeIMissesAlterV(t);
  }

  lemma SenseEpisodeIMissesAlterV(t: string)
    requires Spelled(t, "Sense (Episode I)")
    ensures !Matches(First("Alter (V)", "Alter (Premiere) (V)"), t)
  {
    SenseEpisodeILine(t);
    var p := "Alter (V)";
    assert p[6] == '(' && Lower(p[0]) == 'a';
    MismatchAt(t, p, 0, 0, false);
    PinnedIndexOf(t, p, 6, 6, '(');
  }


  lemma Disambiguation2Late() ensures ParenFrom(Span(["Control (Dag"], [")"], "Control", true), 7) { }
  lemma Disambiguation3Late() ensures ParenFrom(Span(["Tatooine (Pre"], [")"], "Tatooine", true), 7) { }
  lemma Disambiguation4Late() ensures ParenFrom(Span(["Coruscant (S"], [")"], "Coruscant", true), 7) { }
  lemma Disambiguation5Late() ensures ParenFrom(Span(["Obi-Wan's Lightsaber (Pre"], [")"], "Obi-Wan's Lightsaber", true), 7) { }
  lemma Disambiguation6Late() ensures ParenFrom(Span(["Bib Fortuna (J"], [")"], "Bib Fortuna", true), 7) { }
  lemma Disambiguation9Late() ensures ParenFrom(Span(["Control (Ep", "Control (Cor"], [")"], "Control (Episode I)", true), 7) { }
  lemma Disambiguation10Late() ensures ParenFrom(Span(["Tatooine (Ep", "Tatooine (Cor"], [")"], "Tatooine (Episode I)", true), 7) { }
  lemma Disambiguation11Late() ensures ParenFrom(Span(["Coruscant (Ep", "Coruscant (Cor"], [")"], "Coruscant (Episode I)", true), 7) { }
  lemma Disambiguation12Late() ensures ParenFrom(Span(["Obi-Wan's Lightsaber (e", "Obi-Wan's Lightsaber (r"], [")"], "Obi-Wan's Lightsaber (Episode I)", true), 7) { }
  lemma Disambiguation13Late() ensures ParenFrom(Span(["Bib Fortuna (e", "Bib Fortuna (r"], [")"], "Bib Fortuna (Episode I)", true), 7) { }
  lemma Disambiguation14Late() ensures ParenFrom(First("Boba Fett (SE)", "Boba Fett (Special Edition"), 7) { }
  lemma Disambiguation15Late() ensures ParenFrom(First("Boba Fett (CC)", "Boba Fett (Cloud City"), 7) { }

  /** Rules 2 to 6 name longer titles than "Sense": their "(" comes after index 6. */
  lemma DisambiguationsLateA(k: nat)
    requires 2 <= k < 7
    ensures ParenFrom(Disambiguations[k], 7)
  {
    if k == 2 {
      Disambiguation2Late();
      assert Disambiguations[2] == Span(["Control (Dag"], [")"], "Control", true);
    } else if k == 3 {
      Disambiguation3Late();
      assert Disambiguations[3] == Span(["Tatooine (Pre"], [")"], "Tatooine", true);
    } else if k == 4 {
      Disambiguation4Late();
      assert Disambiguations[4] == Span(["Coruscant (S"], [")"], "Coruscant", true);
    } else if k == 5 {
      Disambiguation5Late();
      assert Disambiguations[5] == Span(["Obi-Wan's Lightsaber (Pre"], [")"], "Obi-Wan's Lightsaber", true);
    } else {
      Disambiguation6Late();
      assert Disambiguations[6] == Span(["Bib Fortuna (J"], [")"], "Bib Fortuna", true);
    }
  }

  /** Rules 9 to 15 name longer titles than "Sense": their "(" comes after index 6. */
  lemma DisambiguationsLateB(k: nat)
    requires 8 < k < 16
    ensures ParenFrom(Disambiguations[k], 7)
  {
    if k == 9 {
      Disambiguation9Late();
      assert Disambiguations[9] == Span(["Control (Ep", "Control (Cor"], [")"], "Control (Episode I)", true);
    } else if k == 10 {
      Disambiguation10Late();
      assert Disambiguations[10] == Span(["Tatooine (Ep", "Tatooine (Cor"], [")"], "Tatooine (Episode I)", true);
    } else if k == 11 {
      Disambiguation11Late();
      assert Disambiguations[11] == Span(["Coruscant (Ep", "Coruscant (Cor"], [")"], "Coruscant (Episode I)", true);
    } else if k == 12 {
      Disambiguation12Late();
      assert Disambiguations[12] == Span(["Obi-Wan's Lightsaber (e", "Obi-Wan's Lightsaber (r"], [")"], "Obi-Wan's Lightsaber (Episode I)", true);
    } else if k == 13 {
      Disambiguation13Late();
      assert Disambiguations[13] == Span(["Bib Fortuna (e", "Bib Fortuna (r"], [")"], "Bib Fortuna (Episode I)", true);
    } else if k == 14 {
      Disambiguation14Late();
      assert Disambiguations[14] == First("Boba Fett (SE)", "Boba Fett (Special Edition");
    } else {
      Disambiguation15Late();
      assert Disambiguations[15] == First("Boba Fett (CC)", "Boba Fett (Cloud City");
    }
  }

  /** No rule finds a match in a text with no "(" from index 6 on. */
  lemma DisambiguationsMiss(t: string)
    requires forall j :: 6 <= j < |t| ==> t[j] != '('
    ensures forall k :: 0 <= k < |Disambiguations| ==> !Matches(Disambiguations[k], t)
  {
    DisambiguationsShape();
    forall k | 0 <= k < |Disambiguations|
      ensures !Matches(Disambiguations[k], t)
    {
      ParenRuleNoMatch(Disambiguations[k], t, 6);
    }
  }

  lemma SensePremiereFirst(s: string, t: string)
    requires Spelled(s, "Sense (Premiere)") && Spelled(t, "Sense")
    ensures Apply(Disambiguations[0], s) == t
  {
    SensePremiereLine(s);
    SpelledSame(t, "Sense");
    Disambiguation0Is();
    SpanOneWholeLine(s, "Sense (Pre", "Sense");
  }




  lemma SensePremiereLine(s: string)
    requires Spelled(s, "Sense (Premiere)")
    ensures |s| == 16 && OccursAt(s, "Sense (Pre", 0) && OccursAt(s, ")", 15)
    ensures forall k :: 0 <= k < |s| ==> !IsLineTerminator(s[k])
  {
    SpelledSame(s, "Sense (Premiere)");
  }

  /** A rule whose patterns hold "(" at or after `n` finds no match in a text with none there. */
  lemma ParenRuleNoMatch(rule: Rule, s: string, n: nat)
    requires KeepsLines(rule) && ParenFrom(rule, n)
    requires forall j :: n <= j < |s| ==> s[j] != '('
    ensures !Matches(rule, s)
  {
    if rule.First? {
      LateCharIndexOf(s, rule.p, n, '(');
    } else {
      LateCharDotStarFrom(s, rule.heads, rule.tails, n, '(', rule.ci);
    }
  }

  /** Such rules cannot make three "\n" in a row. */
  lemma {:induction false} ApplyAllNoTripleNewline(s: string, rules: seq<Rule>)
    requires NoTripleNewline(s)
    requires forall k :: 0 <= k < |rules| ==> KeepsLines(rules[k])
    ensures NoTripleNewline(ApplyAll(s, rules))
    decreases |rules|
  {
    if rules != [] {
      var init := rules[..|rules| - 1];
      ApplyAllNoTripleNewline(s, init);
      RuleNoTripleNewline(rules[|rules| - 1], ApplyAll(s, init));
    }
  }

  lemma RuleNoTripleNewline(rule: Rule, s: string)
    requires KeepsLines(rule) && NoTripleNewline(s)
    ensures NoTripleNewline(Apply(rule, s))
  {
    if rule.First? {
      var i := IndexOf(s, rule.p);
      if i >= 0 {
        SpliceNoTripleNewline(s, i, i + |rule.p|, rule.r);
      }
    } else {
      var m := DotStarFrom(s, rule.heads, rule.tails, 0, rule.ci);
      if m.Some? {
        SpliceNoTripleNewline(s, m.value.0, m.value.1, rule.r);
      }
    }
  }

  /** Putting a non-empty text without "\n" in place of `s[i..e]` keeps the runs of "\n" short. */
  lemma SpliceNoTripleNewline(s: string, i: nat, e: nat, r: string)
    requires i <= e <= |s| && NoTripleNewline(s)
    requires r != [] && '\n' !in r
    ensures NoTripleNewline(s[..i] + r + s[e..])
  {
    var t := s[..i] + r + s[e..];
    var d := i + |r|;
    forall j | 0 <= j < |t| - 2
      ensures !(t[j] == '\n' && t[j + 1] == '\n' && t[j + 2] == '\n')
    {
      if j + 2 < i {
        assert t[j] == s[j] && t[j + 1] == s[j + 1] && t[j + 2] == s[j + 2];
      } else if j >= d {
        var o := j - d + e;
        assert t[j] == s[o] && t[j + 1] == s[o + 1] && t[j + 2] == s[o + 2];
      } else {
        var k := if j >= i then j else i;
        assert t[k] == r[k - i];
      }
    }
  }

  // ----- what normalizeHeaders makes of a document ----------------------------------------

  /** A heading fix: a literal pattern, put back as capitals and straight apostrophes. */
  predicate HeaderFix(rule: Rule)
  {
    && rule.First? && rule.p != [] && rule.r != []
    && forall k :: 0 <= k < |rule.r| ==> IsAsciiUpper(rule.r[k]) || rule.r[k] == '\''
  }

  /** `normalizeHeaders` returns a trimmed text in which every apostrophe is straight. */
  lemma NormalizeHeadersClean(doc: string)
    ensures Trimmed(NormalizeHeaders(doc))
    ensures forall ch :: ch in Apostrophes ==> ch !in NormalizeHeaders(doc)
  {
    StraightenedTrimmed(doc);
    HeaderFixesTrimmed(MapChars(Trim(doc), Apostrophes, '\''));
    forall ch | ch in Apostrophes
      ensures ch !in NormalizeHeaders(doc)
    {
      StraightFixesKeepOut(Trim(doc), ch);
    }
  }

  /** Straightened apostrophes stay straight through the heading fixes. */
  lemma StraightFixesKeepOut(s: string, ch: char)
    requires ch in Apostrophes
    ensures ch !in ApplyAll(MapChars(s, Apostrophes, '\''), HeaderFixes)
  {
    MapCharsRemoves(s, Apostrophes, '\'', ch);
    HeaderFixesKeepOut(MapChars(s, Apostrophes, '\''), ch);
  }

  lemma HeaderFixesTrimmed(s: string)
    requires Trimmed(s)
    ensures Trimmed(ApplyAll(s, HeaderFixes))
  {
    HeaderFixesShape();
    HeaderFixesKeepTrimmed(s, HeaderFixes);
  }

  /** The fixes bring back no curly apostrophe. */
  lemma HeaderFixesKeepOut(s: string, ch: char)
    requires ch in Apostrophes && ch !in s
    ensures ch !in ApplyAll(s, HeaderFixes)
  {
    HeaderFixesShape();
    forall k | 0 <= k < |HeaderFixes|
      ensures ch !in Replacement(HeaderFixes[k])
    {
      HeaderFixNoApostrophe(HeaderFixes[k], ch);
    }
    ApplyAllKeepsOut(s, HeaderFixes, ch);
  }

  lemma HeaderFixNoApostrophe(rule: Rule, ch: char)
    requires HeaderFix(rule) && ch in Apostrophes
    ensures ch !in Replacement(rule)
  {
    assert forall k :: 0 <= k < |rule.r| ==> rule.r[k] != ch;
  }

  /** Heading fixes keep a trimmed text trimmed. */
  lemma {:induction false} HeaderFixesKeepTrimmed(s: string, rules: seq<Rule>)
    requires Trimmed(s)
    requires forall k :: 0 <= k < |rules| ==> HeaderFix(rules[k])
    ensures Trimmed(ApplyAll(s, rules))
    decreases |rules|
  {
    if rules != [] {
      var init := rules[..|rules| - 1];
      var rule := rules[|rules| - 1];
      HeaderFixesKeepTrimmed(s, init);
      assert Trimmed(rule.r) by {
        assert IsAsciiUpper(rule.r[0]) || rule.r[0] == '\'';
        assert IsAsciiUpper(rule.r[|rule.r| - 1]) || rule.r[|rule.r| - 1] == '\'';
      }
      ReplaceFirstTrimmed(ApplyAll(s, init), rule.p, rule.r);
    }
  }

  /** Trimming then straightening apostrophes gives a trimmed text. */
  lemma StraightenedTrimmed(doc: string)
    ensures Trimmed(MapChars(Trim(doc), Apostrophes, '\''))
  {
    MapCharsTrimmed(Trim(doc), Apostrophes, '\'');
  }

  /**
   * "DEVICESL" is the last misspelling in the table: every earlier pattern
   * holds a letter it lacks, so only the last rule fires, and it reads "DEVICES".
   */
  lemma NormalizeHeadersDevices(doc: string, t: string)
    requires Spelled(doc, "DEVICESL") && Spelled(t, "DEVICES")
    ensures NormalizeHeaders(doc) == t
  {
    DevicesPrepared(doc);
    DevicesLetters(doc);
    DevicesMissesA(doc);
    DevicesMissesB(doc);
    DevicesFires(doc, t);
    ApplyAllOneFires(doc, HeaderFixes, 16, t);
  }

  lemma DevicesPrepared(doc: string)
    requires Spelled(doc, "DEVICESL")
    ensures Trim(doc) == doc && MapChars(doc, Apostrophes, '\'') == doc
  {
    TrimNoSpaceEnds(doc);
    DevicesUnchanged(doc);
  }

  lemma DevicesUnchanged(doc: string)
    requires Spelled(doc, "DEVICESL")
    ensures MapChars(doc, Apostrophes, '\'') == doc
  {
    DevicesStraight(doc);
    StraightUnchanged(doc);
  }

  lemma DevicesStraight(doc: string)
    requires Spelled(doc, "DEVICESL")
    ensures forall k :: 0 <= k < |doc| ==> doc[k] !in Apostrophes
  {
  }

  lemma DevicesLetters(doc: string)
    requires Spelled(doc, "DEVICESL")
    ensures 'A' !in doc && 'H' !in doc && 'N' !in doc && 'F' !in doc
  {
  }

  /** A text without curly apostrophes is left as it is by their straightening. */
  lemma StraightUnchanged(s: string)
    requires forall k :: 0 <= k < |s| ==> s[k] !in Apostrophes
    ensures MapChars(s, Apostrophes, '\'') == s
  {
  }

  lemma DevicesFires(doc: string, t: string)
    requires Spelled(doc, "DEVICESL") && Spelled(t, "DEVICES")
    ensures Apply(HeaderFixes[16], doc) == t
  {
    HeaderFix16Is();
    SpelledSame(doc, "DEVICESL");
    SpelledSame(t, "DEVICES");
    PresentFirst(doc, doc, t);
    assert doc[|doc|..] == [];
  }

  /** A literal pattern holding a letter `s` lacks does not match it. */
  lemma LetterMiss(rule: Rule, s: string, c: char)
    requires rule.First? && c in rule.p && c !in s
    ensures !Matches(rule, s)
  {
    AbsentCharIndexOf(s, rule.p, c);
  }

  lemma DevicesMissesA(s: string)
    requires 'A' !in s && 'H' !in s && 'N' !in s && 'F' !in s
    ensures forall k :: 0 <= k < 8 ==> !Matches(HeaderFixes[k], s)
  {
    forall k | 0 <= k < 8
      ensures !Matches(HeaderFixes[k], s)
    {
      if k == 0 {
        HeaderFix0Is();
        LetterMiss(HeaderFixes[0], s, 'A');
      } else if k == 1 {
        HeaderFix1Is();
        LetterMiss(HeaderFixes[1], s, 'A');
      } else if k == 2 {
        HeaderFix2Is();
        LetterMiss(HeaderFixes[2], s, 'A');
      } else if k == 3 {
        HeaderFix3Is();
        LetterMiss(HeaderFixes[3], s, 'A');
      } else if k == 4 {
        HeaderFix4Is();
        LetterMiss(HeaderFixes[4], s, 'A');
      } else if k == 5 {
        HeaderFix5Is();
        LetterMiss(HeaderFixes[5], s, 'H');
      } else if k == 6 {
        HeaderFix6Is();
        LetterMiss(HeaderFixes[6], s, 'H');
      } else {
        HeaderFix7Is();
        LetterMiss(HeaderFixes[7], s, 'H');
      }
    }
  }

  lemma DevicesMissesB(s: string)
    requires 'A' !in s && 'H' !in s && 'N' !in s && 'F' !in s
    ensures forall k :: 8 <= k < 16 ==> !Matches(HeaderFixes[k], s)
  {
    forall k | 8 <= k < 16
      ensures !Matches(HeaderFixes[k], s)
    {
      if k == 8 {
        HeaderFix8Is();
        LetterMiss(HeaderFixes[8], s, 'A');
      } else if k == 9 {
        HeaderFix9Is();
        LetterMiss(HeaderFixes[9], s, 'N');
      } else if k == 10 {
        HeaderFix10Is();
        LetterMiss(HeaderFixes[10], s, 'N');
      } else if k == 11 {
        HeaderFix11Is();
        LetterMiss(HeaderFixes[11], s, 'F');
      } else if k == 12 {
        HeaderFix12Is();
        LetterMiss(HeaderFixes[12], s, 'F');
      } else if k == 13 {
        HeaderFix13Is();
        LetterMiss(HeaderFixes[13], s, 'F');
      } else if k == 14 {
        HeaderFix14Is();
        LetterMiss(HeaderFixes[14], s, 'F');
      } else {
        HeaderFix15Is();
        LetterMiss(HeaderFixes[15], s, 'F');
      }
    }
  }

  lemma HeaderFixesShape()
    ensures forall k :: 0 <= k < |HeaderFixes| ==> HeaderFix(HeaderFixes[k])
  {
    forall k | 0 <= k < |HeaderFixes|
      ensures HeaderFix(HeaderFixes[k])
    {
      if k == 0 {
        HeaderFix0Shape();
      } else if k == 1 {
        HeaderFix1Shape();
      } else if k == 2 {
        HeaderFix2Shape();
      } else if k == 3 {
        HeaderFix3Shape();
      } else if k == 4 {
        HeaderFix4Shape();
      } else if k == 5 {
        HeaderFix5Shape();
      } else if k == 6 {
        HeaderFix6Shape();
      } else if k == 7 {
        HeaderFix7Shape();
      } else if k == 8 {
        HeaderFix8Shape();
      } else if k == 9 {
        HeaderFix9Shape();
      } else if k == 10 {
        HeaderFix10Shape();
      } else if k == 11 {
        HeaderFix11Shape();
      } else if k == 12 {
        HeaderFix12Shape();
      } else if k == 13 {
        HeaderFix13Shape();
      } else if k == 14 {
        HeaderFix14Shape();
      } else if k == 15 {
        HeaderFix15Shape();
      } else {
        HeaderFix16Shape();
      }
    }
  }

  lemma HeaderFix0Is() ensures HeaderFixes[0] == First("STARSHPIS", "STARSHIPS") { }
  lemma HeaderFix0Shape() ensures HeaderFix(HeaderFixes[0]) { HeaderFix0Is(); }
  lemma HeaderFix1Is() ensures HeaderFixes[1] == First("STARSHPS", "STARSHIPS") { }
  lemma HeaderFix1Shape() ensures HeaderFix(HeaderFixes[1]) { HeaderFix1Is(); }
  lemma HeaderFix2Is() ensures HeaderFixes[2] == First("STARHIPS", "STARSHIPS") { }
  lemma HeaderFix2Shape() ensures HeaderFix(HeaderFixes[2]) { HeaderFix2Is(); }
  lemma HeaderFix3Is() ensures HeaderFixes[3] == First("STARHSIP", "STARSHIPS") { }
  lemma HeaderFix3Shape() ensures HeaderFix(HeaderFixes[3]) { HeaderFix3Is(); }
  lemma HeaderFix4Is() ensures HeaderFixes[4] == First("STARTSHIPS", "STARSHIPS") { }
  lemma HeaderFix4Shape() ensures HeaderFix(HeaderFixes[4]) { HeaderFix4Is(); }
  lemma HeaderFix5Is() ensures HeaderFixes[5] == First("VECHIVLE", "VEHICLE") { }
  lemma HeaderFix5Shape() ensures HeaderFix(HeaderFixes[5]) { HeaderFix5Is(); }
  lemma HeaderFix6Is() ensures HeaderFixes[6] == First("VECHICLE", "VEHICLE") { }
  lemma HeaderFix6Shape() ensures HeaderFix(HeaderFixes[6]) { HeaderFix6Is(); }
  lemma HeaderFix7Is() ensures HeaderFixes[7] == First("EVEHICLES", "VEHICLES") { }
  lemma HeaderFix7Shape() ensures HeaderFix(HeaderFixes[7]) { HeaderFix7Is(); }
  lemma HeaderFix8Is() ensures HeaderFixes[8] == First("ADMIRALS", "ADMIRAL'S") { }
  lemma HeaderFix8Shape() ensures HeaderFix(HeaderFixes[8]) { HeaderFix8Is(); }
  lemma HeaderFix9Is() ensures HeaderFixes[9] == First("INTERUPTS", "INTERRUPTS") { }
  lemma HeaderFix9Shape() ensures HeaderFix(HeaderFixes[9]) { HeaderFix9Is(); }
  lemma HeaderFix10Is() ensures HeaderFixes[10] == First("INTERTUPTS", "INTERRUPTS") { }
  lemma HeaderFix10Shape() ensures HeaderFix(HeaderFixes[10]) { HeaderFix10Is(); }
  lemma HeaderFix11Is() ensures HeaderFixes[11] == First("EFECTS", "EFFECTS") { }
  lemma HeaderFix11Shape() ensures HeaderFix(HeaderFixes[11]) { HeaderFix11Is(); }
  lemma HeaderFix12Is() ensures HeaderFixes[12] == First("EFFETS", "EFFECTS") { }
  lemma HeaderFix12Shape() ensures HeaderFix(HeaderFixes[12]) { HeaderFix12Is(); }
  lemma HeaderFix13Is() ensures HeaderFixes[13] == First("EFFEECTS", "EFFECTS") { }
  lemma HeaderFix13Shape() ensures HeaderFix(HeaderFixes[13]) { HeaderFix13Is(); }
  lemma HeaderFix14Is() ensures HeaderFixes[14] == First("EFFFECTS", "EFFECTS") { }
  lemma HeaderFix14Shape() ensures HeaderFix(HeaderFixes[14]) { HeaderFix14Is(); }
  lemma HeaderFix15Is() ensures HeaderFixes[15] == First("EFFECTTS", "EFFECTS") { }
  lemma HeaderFix15Shape() ensures HeaderFix(HeaderFixes[15]) { HeaderFix15Is(); }
  lemma HeaderFix16Is() ensures HeaderFixes[16] == First("DEVICESL", "DEVICES") { }
  lemma HeaderFix16Shape() ensures HeaderFix(HeaderFixes[16]) { HeaderFix16Is(); }
}
