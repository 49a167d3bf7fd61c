/**
 * The card catalog: the records of output/cards/Dark.json and Light.json as
 * the scripts read them, and the blanked objective every script appends.
 */
module Cards {
  import opened Str
  import opened Lists

  datatype Side = Dark | Light

  /**
   * The front of a card. A missing `subType`, `lore` or icon count is
   * `None`; a missing `extraText` or `icons` reads like an empty one in every
   * expression that uses it (`?.` or `&&` guard each use).
   */
  datatype Face = Face(
    title: string,
    typ: string,
    subType: Option<string>,
    lore: Option<string>,
    extraText: seq<string>,
    icons: seq<string>,
    lightSideIcons: Option<int>,
    darkSideIcons: Option<int>)

  datatype Card = Card(gempId: string, side: Side, cardSet: string, front: Face, abbr: seq<string>)

  const RalltiirOperationsId := "7_300"
  const BlankedRalltiirId := "7_300v"
  const BlankedRalltiirTitle := "Ralltiir Operations / In The Hands Of The Empire (V)"

  /**
   * `blankedObjectives()`: a copy of Ralltiir Operations (gempId 7_300) under
   * the virtual title and the fake id 7_300v, each abbreviation extended by
   * `suffix` (" (V)" in generateArchetypes.js, " V" in generateDecklistJson.js).
   * Without a 7_300 card `structuredClone(undefined)` yields `undefined` and
   * the title assignment throws.
   */
  function BlankedObjectives(catalog: seq<Card>, suffix: string): (r: Result<seq<Card>>)
    ensures r.Failure? <==> forall i :: 0 <= i < |catalog| ==> catalog[i].gempId != RalltiirOperationsId
    ensures r.Success? ==>
      && |r.value| == 1 && r.value[0].gempId == BlankedRalltiirId
      && r.value[0].front.title == BlankedRalltiirTitle
  {
    match Find(catalog, (c: Card) => c.gempId == RalltiirOperationsId)
    case None => Failure
    case Some(rops) =>
      var abbr := seq(|rops.abbr|, i requires 0 <= i < |rops.abbr| => rops.abbr[i] + suffix);
      Success([rops.(gempId := BlankedRalltiirId, front := rops.front.(title := BlankedRalltiirTitle), abbr := abbr)])
  }

  /**
   * Exactly one card is added: the first 7_300 card under id 7_300v and a
   * "(V)" title, with every abbreviation suffixed and everything else kept.
   */
  lemma BlankedObjectivesSpec(catalog: seq<Card>, suffix: string, i: nat)
    requires i < |catalog| && catalog[i].gempId == RalltiirOperationsId
    requires forall j :: 0 <= j < i ==> catalog[j].gempId != RalltiirOperationsId
    ensures BlankedObjectives(catalog, suffix).Success?
    ensures var b := BlankedObjectives(catalog, suffix).value;
      && |b| == 1
      && b[0].gempId == BlankedRalltiirId
      && EndsWith(b[0].front.title, "(V)")
      && b[0].side == catalog[i].side && b[0].cardSet == catalog[i].cardSet
      && b[0].front == catalog[i].front.(title := b[0].front.title)
      && |b[0].abbr| == |catalog[i].abbr|
      && forall k :: 0 <= k < |b[0].abbr| ==> b[0].abbr[k] == catalog[i].abbr[k] + suffix
  {
    FindFirst(catalog, (c: Card) => c.gempId == RalltiirOperationsId, i);
  }

  /**
   * `allCards`: the dark cards, the light cards, then the blanked objective;
   * loading fails exactly when neither file holds Ralltiir Operations.
   */
  function AllCards(darkCards: seq<Card>, lightCards: seq<Card>, suffix: string): (r: Result<seq<Card>>)
    ensures r.Failure? <==> forall i :: 0 <= i < |darkCards + lightCards| ==>
      (darkCards + lightCards)[i].gempId != RalltiirOperationsId
    ensures r.Success? ==> |r.value| == |darkCards| + |lightCards| + 1
    ensures r.Success? ==> r.value[..|darkCards| + |lightCards|] == darkCards + lightCards
    ensures r.Success? ==> r.value[|darkCards| + |lightCards|] == BlankedObjectives(darkCards + lightCards, suffix).value[0]
    ensures r.Success? ==>
      && r.value[|darkCards| + |lightCards|].gempId == BlankedRalltiirId
      && r.value[|darkCards| + |lightCards|].front.title == BlankedRalltiirTitle
  {
    match BlankedObjectives(darkCards + lightCards, suffix)
    case Failure => Failure
    case Success(extra) => Success(darkCards + lightCards + extra)
  }
}
