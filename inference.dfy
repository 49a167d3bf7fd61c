/**
 * What generateArchetypes.js infers about one decklist: the startable
 * interrupts, the decklist record, its card titles and cards, `mode`,
 * `determineSide` and `determineStartingInterrupt`.
 */
module Inference {
  import opened Str
  import opened Lists
  import opened Cards
  import opened Resolver

  const ExcludedStartingInterrupts: seq<string> := [
    "Prepared Defenses", "Heading For The Medical Frigate", "We Must Accelerate Our Plans",
    "We Wish To Board At Once", "Twi'lek Advisor", "The Signal", "Neimoidian Advisor",
    "Mindful Of The Future", "Careful Planning", "Combat Readiness"]

  const LessDefiningStartingInterrupts: seq<string> := [
    "Surface Defense (V)", "Don't Tread On Me (V)", "Operational As Planned"]

  /** Cards that can only ever be starting locations. */
  const AlwaysStartingLocations: seq<string> := [
    "Yavin 4: Massassi Throne Room", "Ajan Kloss: Training Course", "Tatooine: Slave Quarters (V)"]

  /** `list.includes(x)` for a possibly-`null` cleaned title. */
  predicate Listed(x: Option<string>, list: seq<string>)
  {
    x.Some? && x.value in list
  }

  function CleanTitleOf(c: Card): Option<string>
  {
    CleanCardTitle(Some(c.front.title))
  }

  /**
   * `allStartingInterrupts`: Interrupts whose subType mentions "Starting",
   * except the excluded ones. An Interrupt without a subType throws.
   */
  function StartingInterrupts(catalog: seq<Card>): (r: Result<seq<Card>>)
    ensures r.Failure? <==> exists i :: 0 <= i < |catalog| && catalog[i].front.typ == "Interrupt" && catalog[i].front.subType.None?
    ensures r.Success? ==> forall i :: 0 <= i < |r.value| ==>
      && r.value[i] in catalog && r.value[i].front.typ == "Interrupt"
      && Contains(r.value[i].front.subType.value, "Starting")
      && !Listed(CleanTitleOf(r.value[i]), ExcludedStartingInterrupts)
  {
    if exists i :: 0 <= i < |catalog| && catalog[i].front.typ == "Interrupt" && catalog[i].front.subType.None? then Failure
    else Success(Filter(catalog, (c: Card) =>
      c.front.typ == "Interrupt" && c.front.subType.Some? && Contains(c.front.subType.value, "Starting")
      && !Listed(CleanTitleOf(c), ExcludedStartingInterrupts)))
  }

  // ----- the decklist record ------------------------------------------------------------

  /** A decklist as generateArchetypes.js builds it; `date` and `url` may be missing. */
  datatype Decklist = Decklist(
    title: string,
    date: Option<string>,
    url: Option<string>,
    cards: seq<Card>,
    startingCards: seq<Card>,
    objective: Option<Card>,
    startingInterrupt: Option<Card>,
    startingLocation: Option<Card>,
    side: Option<Side>)

  predicate IsObjective(c: Card) { c.front.typ == "Objective" }
  predicate IsLocation(c: Card) { c.front.typ == "Location" }
  predicate IsCharacter(c: Card) { c.front.typ == "Character" }

  /** `x || y` on possibly-missing objects. */
  function Or<T>(x: Option<T>, y: Option<T>): Option<T>
  {
    if x.Some? then x else y
  }

  function Line(lines: seq<string>, i: nat): Option<string>
  {
    if i < |lines| then Some(lines[i]) else None
  }

  /**
   * The card titles of every line (the title, date and url lines included):
   * `lines.map(cardTitleFromLine).filter(t => t)`.
   */
  function CardTitles(lines: seq<string>): (r: seq<string>)
    ensures forall k :: 0 <= k < |r| ==> r[k] != ""
  {
    if lines == [] then []
    else
      var t := CardTitleFromLine(lines[0]);
      (if Truthy(t) then [t.value] else []) + CardTitles(lines[1..])
  }

  /** `cardTitles.map(ct => findCard(ct)).filter(c => c)`: catalog lookups on both sides. */
  function FindCards(titles: seq<string>, catalog: seq<Card>): (r: seq<Card>)
    ensures |r| <= |titles|
    ensures forall k :: 0 <= k < |r| ==> r[k] in catalog
  {
    if titles == [] then []
    else
      var c := FindCard(catalog, titles[0], None);
      (if c.Some? then [c.value] else []) + FindCards(titles[1..], catalog)
  }

  // ----- mode -----------------------------------------------------------------------------

  /** The (key, count) `mode` holds after the first `i` elements. */
  function ModeState(arr: seq<string>, i: nat): (Option<string>, nat)
    requires i <= |arr|
  {
    if i == 0 then (None, 0)
    else
      var (key, max) := ModeState(arr, i - 1);
      var c := CountUpTo(arr, i, arr[i - 1]);
      if c > max then (Some(arr[i - 1]), c) else (key, max)
  }

  /** `mode(arr)`; `None` is `undefined`. */
  function ModeOf(arr: seq<string>): Option<string>
  {
    ModeState(arr, |arr|).0
  }

  lemma {:induction false} ModeStateSpec(arr: seq<string>, i: nat)
    requires i <= |arr|
    ensures i == 0 <==> ModeState(arr, i).0.None?
    ensures ModeState(arr, i).0.Some? ==>
      (exists j :: 0 <= j < i && arr[j] == ModeState(arr, i).0.value) && CountUpTo(arr, i, ModeState(arr, i).0.value) == ModeState(arr, i).1
    ensures forall y :: CountUpTo(arr, i, y) <= ModeState(arr, i).1
  {
    if i > 0 {
      ModeStateSpec(arr, i - 1);
    }
  }

  lemma {:induction false} ModeStateTie(arr: seq<string>, i: nat)
    requires i <= |arr|
    ensures ModeState(arr, i).0.Some? ==> forall y, k :: 0 <= k <= i ==>
      (CountUpTo(arr, k, y) < ModeState(arr, i).1 || CountUpTo(arr, k, ModeState(arr, i).0.value) == ModeState(arr, i).1)
  {
    if i > 0 {
      ModeStateTie(arr, i - 1);
      ModeStateSpec(arr, i - 1);
      var max := ModeState(arr, i - 1).1;
      var c := CountUpTo(arr, i, arr[i - 1]);
      if c > max {
        forall y, k | 0 <= k <= i
          ensures CountUpTo(arr, k, y) < c || CountUpTo(arr, k, arr[i - 1]) == c
        {
          if k < i {
            CountMonotone(arr, k, i - 1, y);
          }
        }
      } else {
        CountMonotone(arr, i - 1, i, ModeState(arr, i - 1).0.value);
      }
    }
  }

  /**
   * `mode` returns an element with the largest count; of several such, the
   * one that reached that count first (at every prefix where another value
   * has reached it, the result has too). It is `undefined` only on [].
   */
  lemma ModeSpec(arr: seq<string>)
    ensures ModeOf(arr).None? <==> arr == []
    ensures ModeOf(arr).Some? ==> ModeOf(arr).value in arr
    ensures ModeOf(arr).Some? ==> forall y :: CountUpTo(arr, |arr|, y) <= CountUpTo(arr, |arr|, ModeOf(arr).value)
    ensures ModeOf(arr).Some? ==>
      forall y, k :: 0 <= k <= |arr| && CountUpTo(arr, |arr|, y) == CountUpTo(arr, |arr|, ModeOf(arr).value) ==>
        (CountUpTo(arr, k, y) < CountUpTo(arr, |arr|, y) || CountUpTo(arr, k, ModeOf(arr).value) == CountUpTo(arr, |arr|, y))
  {
    ModeStateSpec(arr, |arr|);
    ModeStateTie(arr, |arr|);
  }

  /** `mode` as the script writes it: a counting loop over an object of counts. */
  method Mode(arr: seq<string>) returns (maxKey: Option<string>)
    ensures maxKey == ModeOf(arr)
  {
    var counts: map<string, nat> := map[];
    var maxCount: nat := 0;
    maxKey := None;
    var i := 0;
    while i < |arr|
      invariant 0 <= i <= |arr|
      invariant (maxKey, maxCount) == ModeState(arr, i)
      invariant forall y :: (if y in counts then counts[y] else 0) == CountUpTo(arr, i, y)
    {
      var key := arr[i];
      var count: nat := (if key in counts then counts[key] else 0) + 1;
      counts := counts[key := count];
      if count > maxCount {
        maxCount := count;
        maxKey := Some(key);
      }
      i := i + 1;
    }
  }

  // ----- determineSide ------------------------------------------------------------------------

  /**
   * `determineSide`: " DS " / " LS " in the title first, then the two
   * side-defining Defensive Shields among the cards; `null` otherwise.
   */
  function DetermineSide(d: Decklist): (r: Option<Side>)
    ensures Contains(d.title, " DS ") ==> r == Some(Dark)
    ensures !Contains(d.title, " DS ") && Contains(d.title, " LS ") ==> r == Some(Light)
    ensures !Contains(d.title, " DS ") && !Contains(d.title, " LS ")
      && (exists k :: 0 <= k < |d.cards| && CleanTitleOf(d.cards[k]) == Some("Knowledge And Defense (V)"))
      ==> r == Some(Dark)
    ensures !Contains(d.title, " DS ") && !Contains(d.title, " LS ")
      && (forall k :: 0 <= k < |d.cards| ==> CleanTitleOf(d.cards[k]) != Some("Knowledge And Defense (V)"))
      && (exists k :: 0 <= k < |d.cards| && CleanTitleOf(d.cards[k]) == Some("Anger, Fear, Aggression (V)"))
      ==> r == Some(Light)
    ensures r.None? <==>
      && !Contains(d.title, " DS ") && !Contains(d.title, " LS ")
      && (forall k :: 0 <= k < |d.cards| ==> CleanTitleOf(d.cards[k]) != Some("Knowledge And Defense (V)"))
      && (forall k :: 0 <= k < |d.cards| ==> CleanTitleOf(d.cards[k]) != Some("Anger, Fear, Aggression (V)"))
  {
    if Contains(d.title, " DS ") then Some(Dark)
    else if Contains(d.title, " LS ") then Some(Light)
    else if exists k :: 0 <= k < |d.cards| && CleanTitleOf(d.cards[k]) == Some("Knowledge And Defense (V)") then Some(Dark)
    else if exists k :: 0 <= k < |d.cards| && CleanTitleOf(d.cards[k]) == Some("Anger, Fear, Aggression (V)") then Some(Light)
    else None
  }

  // ----- determineStartingInterrupt ------------------------------------------------------------

  /** The deck's cards that are startable interrupts (matched by gempId). */
  function PossibleStartingInterrupts(d: Decklist, startable: seq<Card>): seq<Card>
  {
    Filter(d.cards, (c: Card) => exists k :: 0 <= k < |startable| && startable[k].gempId == c.gempId)
  }

  /** `determineStartingInterrupt`. */
  function DetermineStartingInterrupt(d: Decklist, startable: seq<Card>): Option<Card>
  {
    var fromSection := Find(d.startingCards, (c: Card) => c.front.typ == "Interrupt");
    var possible := PossibleStartingInterrupts(d, startable);
    var fromDeck := Find(possible, (si: Card) =>
      |possible| == 1 || !Listed(CleanTitleOf(si), LessDefiningStartingInterrupts));
    Or(fromSection, fromDeck)
  }

  /**
   * The first Interrupt of the STARTING section wins. Otherwise the sole
   * startable candidate, or the first candidate that is not less defining;
   * several candidates that are all less defining give nothing.
   */
  lemma DetermineStartingInterruptSpec(d: Decklist, startable: seq<Card>)
    ensures var r := DetermineStartingInterrupt(d, startable);
      var possible := PossibleStartingInterrupts(d, startable);
      && ((exists k :: 0 <= k < |d.startingCards| && d.startingCards[k].front.typ == "Interrupt") ==>
            r == Find(d.startingCards, (c: Card) => c.front.typ == "Interrupt"))
      && ((forall k :: 0 <= k < |d.startingCards| ==> d.startingCards[k].front.typ != "Interrupt") ==>
            && (|possible| == 1 ==> r == Some(possible[0]))
            && (|possible| != 1 ==> r == Find(possible, (si: Card) => !Listed(CleanTitleOf(si), LessDefiningStartingInterrupts)))
            && ((|possible| > 1 && forall k :: 0 <= k < |possible| ==> Listed(CleanTitleOf(possible[k]), LessDefiningStartingInterrupts))
                ==> r.None?)
            && (|possible| == 0 ==> r.None?))
  {
    var possible := PossibleStartingInterrupts(d, startable);
    if |possible| == 1 {
      FindFirst(possible, (si: Card) => |possible| == 1 || !Listed(CleanTitleOf(si), LessDefiningStartingInterrupts), 0);
    } else {
      FindExt(possible, (si: Card) => |possible| == 1 || !Listed(CleanTitleOf(si), LessDefiningStartingInterrupts),
        (si: Card) => !Listed(CleanTitleOf(si), LessDefiningStartingInterrupts));
    }
  }

  lemma {:induction false} FindExt<T>(xs: seq<T>, p: T -> bool, q: T -> bool)
    requires forall x :: p(x) == q(x)
    ensures Find(xs, p) == Find(xs, q)
  {
    FindIndexExt(xs, p, q);
  }

  lemma {:induction false} FindIndexExt<T>(xs: seq<T>, p: T -> bool, q: T -> bool)
    requires forall x :: p(x) == q(x)
    ensures FindIndex(xs, p) == FindIndex(xs, q)
  {
    if xs != [] { FindIndexExt(xs[1..], p, q); }
  }
}
