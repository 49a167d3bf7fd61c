/** `determineStartingLocation` (generateArchetypes.js): a prioritised chain of guesses. */
module Location {
  import opened Str
  import opened Lists
  import opened Cards
  import opened Resolver
  import opened Inference

  /**
   * The inference functions below take `findCardInDecklist(title, decklist)`
   * as the parameter `find`; `DeckFinder` is the one the script uses.
   */
  function DeckFinder(catalog: seq<Card>, d: Decklist): string -> Option<Card>
  {
    (title: string) => FindCardInDecklist(catalog, title, d.side, d.cards)
  }

  function SectionLocations(d: Decklist): seq<Card>
  {
    Filter(d.startingCards, IsLocation)
  }

  /** The STARTING-section locations, or every deck location when there are none. */
  function LocationPool(d: Decklist): seq<Card>
  {
    if |SectionLocations(d)| > 0 then SectionLocations(d) else Filter(d.cards, IsLocation)
  }

  function AlwaysStarting(d: Decklist): Option<Card>
  {
    Find(d.cards, (c: Card) => Listed(CleanTitleOf(c), AlwaysStartingLocations))
  }

  function FirstSectionLocation(d: Decklist): Option<Card>
  {
    if |SectionLocations(d)| > 0 then Some(SectionLocations(d)[0]) else None
  }

  // ----- CP (V) / CR (V): the most common system -------------------------------------------

  /**
   * The system a location belongs to: the cleaned title with " (V)" and the
   * palace and castle prefixes renamed, up to the first ':'. A title that
   * cleans to `null` makes `.replace` throw.
   */
  function SystemName(c: Card): (r: Option<string>)
    ensures r.Some? ==> ':' !in r.value
    ensures r.None? <==> CleanTitleOf(c).None?
  {
    match CleanTitleOf(c)
    case None => None
    case Some(t) =>
      var u := ReplaceFirst(ReplaceFirst(ReplaceFirst(ReplaceFirst(ReplaceFirst(
        t, " (V)", ""), "Xizor's Palace:", "Coruscant:"), "Jabba's Palace:", "Tatooine:"),
        "Maz's Castle:", "Takodana:"), "Cloud City:", "Bespin:");
      Some(Split(u, ':')[0])
  }

  function SystemNames(locs: seq<Card>): (r: Option<seq<string>>)
    ensures r.Some? ==> |r.value| == |locs|
    ensures r.Some? ==> forall k :: 0 <= k < |locs| ==> SystemName(locs[k]) == Some(r.value[k])
    ensures r.None? <==> exists k :: 0 <= k < |locs| && SystemName(locs[k]).None?
  {
    if locs == [] then Some([])
    else
      match (SystemName(locs[0]), SystemNames(locs[1..]))
      case (Some(n), Some(ns)) => Some([n] + ns)
      case _ =>
        assert locs[1..] == locs[1..];
        None
  }

  /** The CP (V) / CR (V) condition, which parses as `(SI && CP (V)) || CR (V)`. */
  predicate CpOrCrDeck(find: string -> Option<Card>, d: Decklist)
  {
    (d.startingInterrupt.Some? && find("Careful Planning (V)").Some?) || find("Combat Readiness (V)").Some?
  }

  /** The deck's copy of the most common system, tried under four spellings. */
  function SystemInDeck(find: string -> Option<Card>, d: Decklist, m: string): Option<Card>
  {
    FirstSome([find(m), find(m + " (V)"),
      find(m + "(Episode I)"), find(m + "(Episode I) (V)")])
  }

  /**
   * `cpOrCRSystem`. A pool location whose title cleans to `null`, or an
   * empty pool (so that `mode` gives `undefined` and `findCard` throws),
   * is a `Failure`.
   */
  function CpOrCrSystem(find: string -> Option<Card>, d: Decklist): Result<Option<Card>>
  {
    if !CpOrCrDeck(find, d) then Success(None)
    else match SystemNames(LocationPool(d))
      case None => Failure
      case Some(names) =>
        match ModeOf(names)
        case None => Failure
        case Some(m) => Success(SystemInDeck(find, d, m))
  }

  // ----- guesses from the rest of the deck and from the title ------------------------------

  /** `contextBasedStartingLocation`: two rules, the later one overriding. */
  function ContextLocation(find: string -> Option<Card>, d: Decklist): Option<Card>
  {
    LastWins([
      (find("Coruscant: Jedi Council Chamber").Some? && !find("Speak With The Jedi Council").Some?
        && !find("Take A Seat, Young Skywalker").Some?, find("Coruscant: Jedi Council Chamber")),
      (find("Naboo: Boss Nass' Chambers").Some? && !find("Wesa Gotta Grand Army").Some?,
        find("Naboo: Boss Nass' Chambers"))
    ], None)
  }

  /** The twelve title hints of `locationFromTitle`, in source order. */
  function TitleRules(find: string -> Option<Card>, d: Decklist): seq<(bool, Option<Card>)>
  {
    var lt := ToLower(d.title);
    [ (Contains(lt, "jcc"), find("Coruscant: Jedi Council Chamber")),
      (MatchesInOrder(lt, [["home one"], ["war room"]], true), find("Home One: War Room")),
      (Contains(lt, "cch") || Contains(lt, "chirpa"), find("Endor: Chief Chirpa's Hut")),
      (Contains(lt, "dwell") || Contains(lt, "slave quarters"),
        Or(find("Tatooine: Slave Quarters (V)"), find("Tatooine: Slave Quarters"))),
      (Contains(lt, "pyre"), find("Endor: Anakin's Funeral Pyre")),
      (Contains(lt, "dls") || Contains(lt, "desert landing site"), find("Tatooine: Desert Landing Site")),
      (MatchesInOrder(d.title, [["Dagobah"], ["Cave"]], true), find("Dagobah: Cave")),
      (MatchesInOrder(d.title, [["Maul"], ["Chambers"]], true), find("Dathomir: Maul's Chambers")),
      (MatchesInOrder(d.title, [["5"], ["Marker"]], true), find("Hoth: Ice Plains (5th Marker) (V)")),
      (MatchesInOrder(d.title, [["D"], ["S"], ["II", "2"], ["Throne Room"]], true), find("Death Star II: Throne Room")),
      (ContainsCI(d.title, "Coruscant SSA"), find("Coruscant: The Works")),
      (MatchesInOrder(d.title, [["SSA"], ["Nines"]], true), find("Tatooine: Desert Landing Site"))
    ]
  }

  /** `locationFromTitle`: the last title hint that matches decides, even when its card is missing. */
  function TitleLocation(find: string -> Option<Card>, d: Decklist): Option<Card>
  {
    LastWins(TitleRules(find, d), None)
  }

  /** The end of the run of word characters starting at `i`. */
  function WordRunEnd(s: string, i: nat): (e: nat)
    requires i <= |s|
    ensures i <= e <= |s|
    ensures forall k :: i <= k < e ==> IsWordChar(s[k])
    ensures e < |s| ==> !IsWordChar(s[e])
    decreases |s| - i
  {
    if i == |s| || !IsWordChar(s[i]) then i else WordRunEnd(s, i + 1)
  }

  /** `/(LS|DS) (\w+).*$/` matches at `i`: `.*$` needs the rest of the title to be one line. */
  predicate SystemWordAt(s: string, i: nat)
  {
    && i + 3 < |s| && (OccursAt(s, "LS ", i) || OccursAt(s, "DS ", i))
    && IsWordChar(s[i + 3]) && SegEnd(s, i + 3) == |s|
  }

  /** The second group of the match at `k`: the word after "LS " or "DS ". */
  function SystemWordOf(s: string, k: nat): string
    requires SystemWordAt(s, k)
  {
    s[k + 3..WordRunEnd(s, k + 3)]
  }

  /** `k` is the leftmost match at or after `i`. */
  predicate FirstSystemWordAt(s: string, i: nat, k: nat)
  {
    i <= k < |s| && SystemWordAt(s, k) && forall j :: i <= j < k ==> !SystemWordAt(s, j)
  }

  /** The leftmost match at or after `i` of that pattern, as its second group. */
  function SystemWordFrom(s: string, i: nat): (r: Option<string>)
    requires i <= |s|
    ensures r.Some? ==> r.value != [] && forall k :: 0 <= k < |r.value| ==> IsWordChar(r.value[k])
    decreases |s| - i
  {
    if i == |s| then None
    else if SystemWordAt(s, i) then Some(SystemWordOf(s, i))
    else SystemWordFrom(s, i + 1)
  }

  /**
   * The word found is the one after the leftmost match at or after `i`, and
   * there is none exactly when nothing at or after `i` matches.
   */
  lemma {:induction false} SystemWordFromLeftmost(s: string, i: nat)
    requires i <= |s|
    ensures var r := SystemWordFrom(s, i);
      && (r.Some? ==> exists k :: FirstSystemWordAt(s, i, k) && r.value == SystemWordOf(s, k))
      && (r.None? <==> forall k :: i <= k < |s| ==> !SystemWordAt(s, k))
    decreases |s| - i
  {
    if i < |s| {
      if SystemWordAt(s, i) {
        assert FirstSystemWordAt(s, i, i);
      } else {
        SystemWordFromLeftmost(s, i + 1);
        if SystemWordFrom(s, i + 1).Some? {
          var k :| FirstSystemWordAt(s, i + 1, k) && SystemWordFrom(s, i + 1).value == SystemWordOf(s, k);
          assert FirstSystemWordAt(s, i, k);
        }
      }
    }
  }

  /** `possibleSystemNameFromTitle`. */
  function TitleSystem(find: string -> Option<Card>, d: Decklist): Option<Card>
  {
    match SystemWordFrom(d.title, 0)
    case None => None
    case Some(w) => FirstSome([find(w), find(w + " (Episode I)"), find(w + " (V)")])
  }

  // ----- the process of elimination ------------------------------------------------------

  predicate MoreThanOne(icons: Option<int>)
  {
    icons.Some? && icons.value > 1
  }

  /** The cleaned title is none of `titles` (`null` differs from each). */
  predicate NotTitled(l: Card, titles: seq<string>)
  {
    !Listed(CleanTitleOf(l), titles)
  }

  /** The `k`-th elimination filter in source order: whether it applies, and what it keeps. */
  function EliminationFilter(find: string -> Option<Card>, d: Decklist, k: nat): (bool, Card -> bool)
  {
    if k == 0 then (true, (c: Card) => MoreThanOne(c.front.lightSideIcons) || MoreThanOne(c.front.darkSideIcons) || Contains(c.front.title, "Hoth: Main Power Generators"))
    else if k == 1 then (find("Speak With The Jedi Council").Some? || find("Take A Seat, Young Skywalker").Some?, (l: Card) => NotTitled(l, ["Coruscant: Jedi Council Chamber"]))
    else if k == 2 then (find("Wesa Gotta Grand Army").Some?, (l: Card) => NotTitled(l, ["Naboo: Boss Nass' Chambers", "Naboo: Battle Plains"]))
    else if k == 3 then (find("Our Only Hope (V)").Some?, (l: Card) => !Contains(l.front.title, "Yoda's Hut") && !Contains(l.front.title, "Death Star II"))
    else if k == 4 then (find("We Must Accelerate Our Plans").Some?, (l: Card) => NotTitled(l, ["Blockade Flagship: Bridge"]))
    else if k == 5 then (find("Sonic Bombardment").Some?, (l: Card) => NotTitled(l, ["Cloud City: Security Tower (V)"]))
    else if k == 6 then (find("Vader's Obsession (V)").Some?, (l: Card) => NotTitled(l, ["Courscant: The Works"]))
    else if k == 7 then (find("Jedi Business").Some?, (l: Card) => NotTitled(l, ["Coruscant: Night Club", "Malastare", "Tatooine: Mos Espa"]))
    else if k == 8 then (find("Now, This Is Podracing!").Some?, (l: Card) => NotTitled(l, ["Coruscant: Night Club", "Tatooine: Skywalker Hut"]))
    else if k == 9 then (find("Kamino").Some?, (l: Card) => !Contains(l.front.title, "Kamino: "))
    else if k == 10 then (find("Dagobah").Some? || find("Dagobah (V)").Some?, (l: Card) => !Contains(l.front.title, "Dagobah: "))
    else if k == 11 then (find("A New Secret Base").Some?, (l: Card) => !(l.front.subType == Some("System") && MoreThanOne(l.front.darkSideIcons) && MoreThanOne(l.front.lightSideIcons)))
    else if k == 12 then (find("Let The Wookiee Win (V)").Some?, (l: Card) => !Contains(l.front.title, "Kashyyyk"))
    else if k == 13 then (find("I Must Be Allowed To Speak (V)").Some?, (l: Card) => !Contains(l.front.title, "Farm"))
    else if k == 14 then (find("Like My Father Before Me").Some?, (l: Card) => Contains(l.front.title, "Endor"))
    else (true, (c: Card) => !Contains(c.front.title, "Docking Bay"))
  }

  /** The sixteen elimination filters. */
  function EliminationFilters(find: string -> Option<Card>, d: Decklist): (r: seq<(bool, Card -> bool)>)
    ensures |r| == 16
  {
    seq(16, (k: int) requires 0 <= k => EliminationFilter(find, d, k))
  }

  /** The pool locations that pass every elimination filter that applies. */
  function Survivors(find: string -> Option<Card>, d: Decklist): seq<Card>
  {
    Sieve(LocationPool(d), EliminationFilters(find, d), 16)
  }

  /**
   * A location survives elimination iff it is in the pool and every filter
   * that applies to the deck keeps it.
   */
  lemma SurvivorsSpec(find: string -> Option<Card>, d: Decklist, l: Card)
    ensures var filters := EliminationFilters(find, d);
      l in Survivors(find, d) <==> l in LocationPool(d) && forall k :: 0 <= k < 16 ==> (filters[k].0 ==> filters[k].1(l))
  {
    var filters := EliminationFilters(find, d);
    PassesIff(filters, 16, l);
    var s := Survivors(find, d);
    if l in s {
      var i :| 0 <= i < |s| && s[i] == l;
    }
    if l in LocationPool(d) {
      var i :| 0 <= i < |LocationPool(d)| && LocationPool(d)[i] == l;
    }
  }

  predicate IsTwix(c: Card)
  {
    c.front.darkSideIcons == Some(0) || c.front.lightSideIcons == Some(0)
  }

  /** The one-sided survivors, without Obi-Wan's Hut once Return Of A Jedi (V) is in a deck with several. */
  function Twixes(find: string -> Option<Card>, d: Decklist, survivors: seq<Card>): seq<Card>
  {
    var twixes := Filter(survivors, IsTwix);
    if |twixes| > 1 && find("Return Of A Jedi (V)").Some? then Filter(twixes, NotObiWansHut) else twixes
  }

  predicate NotObiWansHut(c: Card)
  {
    !Contains(c.front.title, "Obi-Wan's Hut")
  }

  /** `processOfEliminationStartingLocation`: a sole survivor, or else a sole twix. */
  function Eliminated(find: string -> Option<Card>, d: Decklist, survivors: seq<Card>): (r: Option<Card>)
    ensures r.Some? <==> |survivors| == 1 || (|survivors| != 1 && |Twixes(find, d, survivors)| == 1)
    ensures |survivors| == 1 ==> r == Some(survivors[0])
  {
    if |survivors| == 1 then Some(survivors[0])
    else
      var twixes := Twixes(find, d, survivors);
      if |twixes| == 1 then Some(twixes[0]) else None
  }

  // ----- the whole chain -----------------------------------------------------------------

  /** The seven guesses, highest priority first. */
  function Guesses(find: string -> Option<Card>, d: Decklist, cpOrCr: Option<Card>): seq<Option<Card>>
  {
    [ AlwaysStarting(d), cpOrCr, ContextLocation(find, d), TitleLocation(find, d),
      TitleSystem(find, d), Eliminated(find, d, Survivors(find, d)),
      FirstSectionLocation(d) ]
  }

  /** `determineStartingLocation`, as the first present guess. */
  function StartingLocation(find: string -> Option<Card>, d: Decklist): Result<Option<Card>>
  {
    match CpOrCrSystem(find, d)
    case Failure => Failure
    case Success(cp) => Success(FirstSome(Guesses(find, d, cp)))
  }

  /**
   * The chain's priority: the `k`-th guess is the answer when it is present
   * and every guess before it is missing.
   */
  lemma StartingLocationOrder(find: string -> Option<Card>, d: Decklist, cp: Option<Card>, k: nat)
    requires CpOrCrSystem(find, d) == Success(cp)
    requires k < 7 && Guesses(find, d, cp)[k].Some?
    requires forall j :: 0 <= j < k ==> Guesses(find, d, cp)[j].None?
    ensures StartingLocation(find, d) == Success(Guesses(find, d, cp)[k])
  {
    FirstSomeFirst(Guesses(find, d, cp), k);
  }

  /** There is no starting location only when every guess is missing. */
  lemma StartingLocationNone(find: string -> Option<Card>, d: Decklist, cp: Option<Card>)
    requires CpOrCrSystem(find, d) == Success(cp)
    ensures StartingLocation(find, d) == Success(None) <==> forall k :: 0 <= k < 7 ==> Guesses(find, d, cp)[k].None?
  {
  }

  /** An eliminated location comes from the pool. */
  lemma EliminatedInPool(find: string -> Option<Card>, d: Decklist)
    ensures var e := Eliminated(find, d, Survivors(find, d));
      e.Some? ==> e.value in LocationPool(d)
  {
    var s := Survivors(find, d);
    if |s| != 1 && |Twixes(find, d, s)| == 1 {
      var t := Twixes(find, d, s);
      assert t[0] in s;
    }
  }

  /**
   * `CpOrCrSystem` fails exactly on a CP (V) / CR (V) deck whose pool of
   * locations is empty or holds a title that cleans to `null`.
   */
  lemma CpOrCrFailure(find: string -> Option<Card>, d: Decklist)
    ensures CpOrCrSystem(find, d).Failure? <==>
      CpOrCrDeck(find, d) && (|LocationPool(d)| == 0 || exists k :: 0 <= k < |LocationPool(d)| && CleanTitleOf(LocationPool(d)[k]).None?)
  {
    var pool := LocationPool(d);
    match SystemNames(pool)
    case None =>
      var k :| 0 <= k < |pool| && SystemName(pool[k]).None?;
    case Some(names) =>
      ModeSpec(names);
      assert forall k :: 0 <= k < |pool| ==> SystemName(pool[k]).Some?;
  }

  // ----- determineStartingLocation, statement by statement ------------------------------------

  /**
   * The process-of-elimination pool narrowed filter by filter, as the script
   * reassigns it; the sixteen conditional filters are walked in source order.
   */
  method EliminationCandidates(find: string -> Option<Card>, d: Decklist) returns (candidates: seq<Card>)
    ensures candidates == Survivors(find, d)
  {
    var filters := EliminationFilters(find, d);
    candidates := LocationPool(d);
    SieveStart(candidates, filters);
    for k := 0 to 16
      invariant candidates == Sieve(LocationPool(d), filters, k)
    {
      var (applies, keep) := filters[k];
      if applies {
        SieveStep(LocationPool(d), filters, k, keep);
        candidates := Filter(candidates, keep);
      } else {
        SieveSkip(LocationPool(d), filters, k);
      }
    }
  }

  /** The CP (V) / CR (V) guess, with the counting `mode` loop. */
  method CpOrCrGuess(find: string -> Option<Card>, d: Decklist) returns (r: Result<Option<Card>>)
    ensures r == CpOrCrSystem(find, d)
  {
    r := Success(None);
    if CpOrCrDeck(find, d) {
      var systemNames := SystemNames(LocationPool(d));
      if systemNames.None? {
        return Failure;
      }
      var mostCommonSystemName := Mode(systemNames.value);
      if mostCommonSystemName.None? {
        return Failure;
      }
      r := Success(SystemInDeck(find, d, mostCommonSystemName.value));
    }
  }

  /** The process-of-elimination guess. */
  method EliminationGuess(find: string -> Option<Card>, d: Decklist) returns (r: Option<Card>)
    ensures r == Eliminated(find, d, Survivors(find, d))
  {
    var candidates := EliminationCandidates(find, d);
    r := None;
    if |candidates| == 1 {
      r := Some(candidates[0]);
    } else {
      var twixes := Filter(candidates, IsTwix);
      if |twixes| > 1 && find("Return Of A Jedi (V)").Some? {
        twixes := Filter(twixes, NotObiWansHut);
      }
      if |twixes| == 1 {
        r := Some(twixes[0]);
      }
    }
  }

  /** `determineStartingLocation`: the guesses in source order, then the `||` chain. */
  method DetermineStartingLocation(find: string -> Option<Card>, d: Decklist) returns (r: Result<Option<Card>>)
    ensures r == StartingLocation(find, d)
  {
    var alwaysStartingLocation := AlwaysStarting(d);
    var startingSectionLocations := SectionLocations(d);
    var startingSectionFirstLocation := if |startingSectionLocations| > 0 then Some(startingSectionLocations[0]) else None;
    var cpOrCRSystem := CpOrCrGuess(find, d);
    if cpOrCRSystem.Failure? {
      return Failure;
    }
    var contextBasedStartingLocation := ContextLocation(find, d);
    var locationFromTitle := TitleLocation(find, d);
    var possibleSystemNameFromTitle := TitleSystem(find, d);
    var processOfEliminationStartingLocation := EliminationGuess(find, d);
    r := Success(FirstSome([alwaysStartingLocation, cpOrCRSystem.value, contextBasedStartingLocation, locationFromTitle,
      possibleSystemNameFromTitle, processOfEliminationStartingLocation, startingSectionFirstLocation]));
  }
}
