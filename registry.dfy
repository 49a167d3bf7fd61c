/**
 * The driver of generateArchetypes.js: each txt decklist read into a
 * decklist record, then the archetype registry (`allArchetypes`) that
 * `seedArchetypes`, `seedDecklistArchetypesFromTitles` and
 * `manualPostProcessing` build through `createOrUpdateArchetype`.
 */
module Registry {
  import opened Str
  import opened Lists
  import opened Cards
  import opened Resolver
  import opened Inference
  import opened Location
  import opened Naming

  // ----- reading a decklist ---------------------------------------------------------------

  /**
   * One txt decklist as the `allDecklists` map builds it. Its first three
   * lines are the title, date and url; cards are looked up on both sides,
   * and so is the starting location, found before the side is decided.
   * `startable` is `allStartingInterrupts`.
   */
  function ReadDecklist(txt: string, catalog: seq<Card>, startable: seq<Card>): (r: Result<Decklist>)
    ensures r.Success? ==> forall k :: 0 <= k < |r.value.cards| ==> r.value.cards[k] in catalog
    ensures r.Success? ==> r.value.title == SplitLines(txt)[0]
    ensures r.Success? ==> r.value.objective == Find(r.value.cards, IsObjective)
    ensures r.Success? ==> r.value == ReadDecklistBeforeLocation(txt, catalog, startable).(
      startingLocation := r.value.startingLocation, side := r.value.side)
    ensures r.Success? ==> r.value.side == DetermineSide(ReadDecklistBeforeLocation(txt, catalog, startable))
    ensures r.Failure? <==> (StartingSectionCards(SplitLines(txt), catalog).Failure?
      || StartingLocation(DeckFinder(catalog, ReadDecklistBeforeLocation(txt, catalog, startable)),
           ReadDecklistBeforeLocation(txt, catalog, startable)).Failure?)
  {
    match StartingSectionCards(SplitLines(txt), catalog)
    case Failure => Failure
    case Success(_) =>
      var d := ReadDecklistBeforeLocation(txt, catalog, startable);
      Located(d, StartingLocation(DeckFinder(catalog, d), d))
  }

  /**
   * The record with its starting location, then its final side;
   * `determineSide` reads only the title and the cards, which the starting
   * location leaves as they are.
   */
  function Located(d: Decklist, sl: Result<Option<Card>>): (r: Result<Decklist>)
    ensures r.Failure? <==> sl.Failure?
    ensures r.Success? ==> r.value == d.(startingLocation := sl.value, side := r.value.side)
    ensures r.Success? ==> r.value.side == DetermineSide(d)
  {
    match sl
    case Failure => Failure
    case Success(l) =>
      Success(d.(startingLocation := l, side := DetermineSide(d)))
  }

  /** The record up to its starting interrupt (a start of the STARTING section that throws reads as empty). */
  function ReadDecklistBeforeLocation(txt: string, catalog: seq<Card>, startable: seq<Card>): (d: Decklist)
    ensures d.startingLocation.None? && d.side.None?
  {
    var lines := SplitLines(txt);
    var cards := FindCards(CardTitles(lines), catalog);
    var startingCards := match StartingSectionCards(lines, catalog) case Success(s) => s case Failure => [];
    var d := Decklist(lines[0], Line(lines, 1), Line(lines, 2), cards, startingCards, Find(cards, IsObjective), None, None, None);
    d.(startingInterrupt := DetermineStartingInterrupt(d, startable))
  }

  // ----- the archetype records ------------------------------------------------------------

  /** An entry of `allArchetypes`; a url or matcher may be `undefined`, hence `Option`. */
  datatype Archetype = Archetype(
    name: string,
    side: Option<Side>,
    decklistUrls: seq<Option<string>>,
    shortName: Option<string>,
    aliases: seq<Option<string>>,
    matchers: seq<Option<string>>)

  /** The object handed to `createOrUpdateArchetype`; a missing list is `None`. */
  datatype Candidate = Candidate(
    name: string,
    side: Option<Side>,
    decklistUrls: Option<seq<Option<string>>>,
    shortName: Option<string>,
    aliases: Option<seq<Option<string>>>,
    matchers: Option<seq<Option<string>>>)

  /** `[arch.name, ...arch.aliases, ...arch.matchers]`. */
  function Names(a: Archetype): seq<Option<string>>
  {
    [Some(a.name)] + a.aliases + a.matchers
  }

  /** Some truthy name of `a` compares equal to `q` under `comparableString`. */
  predicate MatchesName(a: Archetype, q: string)
  {
    exists x :: x in Names(a) && Truthy(x) && ComparableString(x.value) == ComparableString(q)
  }

  /** `findArchetypeByNameOrAlias`: the slot of the first matching archetype. */
  function FindIn(arcs: seq<Archetype>, q: Option<string>): (r: Option<nat>)
    ensures r.Some? ==> Truthy(q) && r.value < |arcs| && MatchesName(arcs[r.value], q.value)
    ensures r.Some? ==> forall j :: 0 <= j < r.value ==> !MatchesName(arcs[j], q.value)
    ensures r.None? ==> !Truthy(q) || forall j :: 0 <= j < |arcs| ==> !MatchesName(arcs[j], q.value)
  {
    if !Truthy(q) then None else FindIndex(arcs, (a: Archetype) => MatchesName(a, q.value))
  }

  /** `[...new Set([...xs, ...ys])].filter(a => a)`. */
  function Union(xs: seq<Option<string>>, ys: seq<Option<string>>): (r: seq<Option<string>>)
    ensures NoDuplicates(r)
    ensures forall k :: 0 <= k < |r| ==> Truthy(r[k]) && (r[k] in xs || r[k] in ys)
    ensures forall x :: x in xs + ys && Truthy(x) ==> x in r
  {
    var u := Dedup(xs + ys);
    FilterNoDuplicates(u, Truthy);
    Filter(u, Truthy)
  }

  /** Merging in what the list already holds changes a clean list not at all. */
  lemma UnionAbsorbs(xs: seq<Option<string>>, ys: seq<Option<string>>)
    requires NoDuplicates(xs) && forall k :: 0 <= k < |xs| ==> Truthy(xs[k])
    requires forall y :: y in ys ==> y in xs
    ensures Union(xs, ys) == xs
  {
    DedupAppendPresent(xs, ys);
    DedupNoDuplicates(xs);
    FilterAllOf(xs, Truthy);
  }

  /** `createArchetype`: the pushed record, missing lists as empty ones. */
  function Created(c: Candidate): (a: Archetype)
    ensures a.name == c.name && a.side == c.side && a.shortName == c.shortName
    ensures a.decklistUrls == (if c.decklistUrls.Some? then c.decklistUrls.value else [])
    ensures a.aliases == (if c.aliases.Some? then c.aliases.value else [])
    ensures a.matchers == (if c.matchers.Some? then c.matchers.value else [])
  {
    Archetype(c.name, c.side, Or(c.decklistUrls, Some([])).value, c.shortName,
      Or(c.aliases, Some([])).value, Or(c.matchers, Some([])).value)
  }

  /**
   * The fields `updateArchetype` overwrites on the found record: the side
   * always, the short name when the candidate has a truthy one, the urls when
   * the candidate has some, the aliases and matchers when it has a list.
   */
  function Updated(a: Archetype, c: Candidate): (u: Archetype)
    ensures u.name == a.name && u.side == c.side
    ensures u.shortName == if Truthy(c.shortName) then c.shortName else a.shortName
    ensures c.decklistUrls.None? || c.decklistUrls.value == [] ==> u.decklistUrls == a.decklistUrls
    ensures c.aliases.None? ==> u.aliases == a.aliases
    ensures c.matchers.None? ==> u.matchers == a.matchers
  {
    a.(side := c.side,
       shortName := if Truthy(c.shortName) then c.shortName else a.shortName,
       decklistUrls := match c.decklistUrls
         case Some(urls) => if |urls| > 0 then Union(a.decklistUrls, urls) else a.decklistUrls
         case None => a.decklistUrls,
       aliases := match c.aliases case Some(xs) => Union(a.aliases, xs) case None => a.aliases,
       matchers := match c.matchers case Some(xs) => Union(a.matchers, xs) case None => a.matchers)
  }

  /** `updateArchetype(nameOrAlias, c)`: the record found by `nameOrAlias`, updated in place. */
  function UpdateIn(arcs: seq<Archetype>, nameOrAlias: Option<string>, c: Candidate): (r: seq<Archetype>)
    ensures |r| == |arcs|
  {
    match FindIn(arcs, nameOrAlias)
    case None => arcs
    case Some(j) => arcs[j := Updated(arcs[j], c)]
  }

  /**
   * `createOrUpdateArchetype`: found by the candidate's name, the record is
   * updated — re-found by its own name, which may pick an earlier record
   * that has that name as an alias; otherwise the candidate is appended.
   */
  function CreateOrUpdateIn(arcs: seq<Archetype>, c: Candidate): (r: seq<Archetype>)
    ensures |r| == |arcs| + (if FindIn(arcs, Some(c.name)).None? then 1 else 0)
  {
    match FindIn(arcs, Some(c.name))
    case None => arcs + [Created(c)]
    case Some(i) => UpdateIn(arcs, Some(arcs[i].name), c)
  }

  /** `manualPostProcessing`: the first record named like the objective is made Dark. */
  function PostProcessed(arcs: seq<Archetype>): (r: seq<Archetype>)
    ensures |r| == |arcs|
  {
    match FindIndex(arcs, (a: Archetype) => a.name == "Death Star II: Throne Room According To My Design")
    case None => arcs
    case Some(i) => arcs[i := arcs[i].(side := Some(Dark))]
  }

  // ----- what one create-or-update does ---------------------------------------------------

  /** An archetype is found by each of its own truthy names. */
  lemma MatchesOwnName(a: Archetype, x: Option<string>)
    requires x in Names(a) && Truthy(x)
    ensures MatchesName(a, x.value)
  {
  }

  /** An update keeps every truthy name of the record, so whatever found it still does. */
  lemma UpdatedKeepsNames(a: Archetype, c: Candidate, q: string)
    requires MatchesName(a, q)
    ensures MatchesName(Updated(a, c), q)
  {
    var x :| x in Names(a) && Truthy(x) && ComparableString(x.value) == ComparableString(q);
    var u := Updated(a, c);
    if x in a.aliases {
      assert x in a.aliases + if c.aliases.Some? then c.aliases.value else [];
      assert x in u.aliases;
    } else if x in a.matchers {
      assert x in a.matchers + if c.matchers.Some? then c.matchers.value else [];
      assert x in u.matchers;
    } else {
      assert x == Some(a.name);
    }
    assert x in Names(u);
  }

  /** An update keeps every truthy url of the record. */
  lemma UpdatedKeepsUrl(a: Archetype, c: Candidate, url: Option<string>)
    requires url in a.decklistUrls && Truthy(url)
    ensures url in Updated(a, c).decklistUrls
  {
    if c.decklistUrls.Some? && |c.decklistUrls.value| > 0 {
      assert url in a.decklistUrls + c.decklistUrls.value;
    }
  }

  /** An update adds every truthy url of the candidate. */
  lemma UpdatedAddsUrl(a: Archetype, c: Candidate, url: Option<string>)
    requires c.decklistUrls.Some? && url in c.decklistUrls.value && Truthy(url)
    ensures url in Updated(a, c).decklistUrls
  {
    assert url in a.decklistUrls + c.decklistUrls.value;
  }

  /** The re-find by the found record's own name lands on it or on an earlier record. */
  lemma RefindIsEarlier(arcs: seq<Archetype>, i: nat)
    requires i < |arcs| && arcs[i].name != ""
    ensures FindIn(arcs, Some(arcs[i].name)).Some? && FindIn(arcs, Some(arcs[i].name)).value <= i
  {
    MatchesOwnName(arcs[i], Some(arcs[i].name));
  }

  /** Every archetype has a non-empty name: true of what the seeding steps build. */
  predicate AllNamed(arcs: seq<Archetype>)
  {
    forall k :: 0 <= k < |arcs| ==> arcs[k].name != ""
  }

  /**
   * `createOrUpdateArchetype` appends exactly when the candidate's name finds
   * nothing, never renames a record, and otherwise changes one record — the
   * one its name's re-find picks, at or before the record first found — to
   * the candidate's side.
   */
  lemma CreateOrUpdateSpec(arcs: seq<Archetype>, c: Candidate)
    requires AllNamed(arcs)
    ensures var r := CreateOrUpdateIn(arcs, c);
      && |r| == |arcs| + (if FindIn(arcs, Some(c.name)).None? then 1 else 0)
      && (forall k :: 0 <= k < |arcs| ==> r[k].name == arcs[k].name)
      && (FindIn(arcs, Some(c.name)).None? ==> r[|arcs|] == Created(c))
      && (FindIn(arcs, Some(c.name)).Some? ==>
            exists j :: 0 <= j <= FindIn(arcs, Some(c.name)).value
              && r == arcs[j := Updated(arcs[j], c)] && r[j].side == c.side)
  {
    match FindIn(arcs, Some(c.name))
    case None =>
    case Some(i) =>
      RefindIsEarlier(arcs, i);
      var j := FindIn(arcs, Some(arcs[i].name)).value;
      assert CreateOrUpdateIn(arcs, c) == arcs[j := Updated(arcs[j], c)];
  }

  /** A candidate with a name keeps the registry fully named. */
  lemma CreateOrUpdateNamed(arcs: seq<Archetype>, c: Candidate)
    requires AllNamed(arcs) && c.name != ""
    ensures AllNamed(CreateOrUpdateIn(arcs, c))
  {
    CreateOrUpdateSpec(arcs, c);
  }

  /** After the call, the candidate's name finds a record. */
  lemma CreateOrUpdateFindable(arcs: seq<Archetype>, c: Candidate)
    requires c.name != ""
    ensures FindIn(CreateOrUpdateIn(arcs, c), Some(c.name)).Some?
  {
    var r := CreateOrUpdateIn(arcs, c);
    match FindIn(arcs, Some(c.name))
    case None =>
      MatchesOwnName(r[|arcs|], Some(c.name));
    case Some(i) =>
      match FindIn(arcs, Some(arcs[i].name))
      case None =>
        assert r == arcs;
      case Some(j) =>
        assert r == arcs[j := Updated(arcs[j], c)];
        if i == j {
          UpdatedKeepsNames(arcs[i], c, c.name);
        }
        assert MatchesName(r[i], c.name);
  }

  /** A truthy url a record holds stays with that record. */
  lemma CreateOrUpdateKeepsUrl(arcs: seq<Archetype>, c: Candidate, k: nat, url: Option<string>)
    requires k < |arcs| && url in arcs[k].decklistUrls && Truthy(url)
    ensures k < |CreateOrUpdateIn(arcs, c)| && url in CreateOrUpdateIn(arcs, c)[k].decklistUrls
  {
    match FindIn(arcs, Some(c.name))
    case None =>
    case Some(i) =>
      match FindIn(arcs, Some(arcs[i].name))
      case None =>
      case Some(j) =>
        if j == k {
          UpdatedKeepsUrl(arcs[k], c, url);
        }
  }

  /** A truthy url of the candidate lands on some record. */
  lemma CreateOrUpdateAddsUrl(arcs: seq<Archetype>, c: Candidate, url: Option<string>)
    requires AllNamed(arcs) && c.decklistUrls.Some? && url in c.decklistUrls.value && Truthy(url)
    ensures exists k :: 0 <= k < |CreateOrUpdateIn(arcs, c)| && url in CreateOrUpdateIn(arcs, c)[k].decklistUrls
  {
    var r := CreateOrUpdateIn(arcs, c);
    match FindIn(arcs, Some(c.name))
    case None =>
      assert url in r[|arcs|].decklistUrls;
    case Some(i) =>
      RefindIsEarlier(arcs, i);
      var j := FindIn(arcs, Some(arcs[i].name)).value;
      UpdatedAddsUrl(arcs[j], c, url);
      assert url in r[j].decklistUrls;
  }

  // ----- seeding --------------------------------------------------------------------------

  /**
   * The alias `seedArchetypes` derives from an objective abbreviation: the
   * part before the first "/", with " (V)" added when the abbreviation
   * matches the pattern "(V)" and that part does not already end in "(V)".
   * As a regular expression "(V)" is a group around "V", so any "V" counts.
   */
  function AbbrAlias(a: string): (r: string)
    ensures var head := Split(a, '/')[0]; |head| <= |r| && r[..|head|] == head
    ensures r == Split(a, '/')[0] <==> !Contains(a, "V") || EndsWith(Split(a, '/')[0], "(V)")
    ensures r != Split(a, '/')[0] ==> r == Split(a, '/')[0] + " (V)"
  {
    var head := Split(a, '/')[0];
    var r := head + (if Contains(a, "V") && !EndsWith(head, "(V)") then " (V)" else "");
    assert r[..|head|] == head;
    r
  }

  function Somes(xs: seq<string>): (r: seq<Option<string>>)
    ensures |r| == |xs| && forall k :: 0 <= k < |xs| ==> r[k] == Some(xs[k])
  {
    seq(|xs|, (k: int) requires 0 <= k < |xs| => Some(xs[k]))
  }

  function AbbrAliases(abbr: seq<string>): (r: seq<Option<string>>)
    ensures |r| == |abbr| && forall k :: 0 <= k < |abbr| ==> r[k] == Some(AbbrAlias(abbr[k]))
  {
    seq(|abbr|, (k: int) requires 0 <= k < |abbr| => Some(AbbrAlias(abbr[k])))
  }

  /**
   * The candidate `seedArchetypes` builds from a decklist and its archetype
   * name: with an objective, the distinct names, abbreviations and their
   * derived aliases serve as both aliases and matchers; without one, the
   * name and the short name.
   */
  function SeedCandidate(d: Decklist, name: string, short: string): (c: Candidate)
    ensures c.name == name && c.side == d.side && c.decklistUrls == Some([])
    ensures c.shortName == Some(short)
    ensures c.aliases.Some? && c.aliases == c.matchers
    ensures Some(name) in c.aliases.value && Some(short) in c.aliases.value
    ensures d.objective.Some? ==> (NoDuplicates(c.aliases.value)
      && (forall k :: 0 <= k < |d.objective.value.abbr| ==>
            Some(d.objective.value.abbr[k]) in c.aliases.value
            && Some(AbbrAlias(d.objective.value.abbr[k])) in c.aliases.value))
    ensures d.objective.None? ==> c.aliases.value == [Some(name), Some(short)]
  {
    var aliases := match d.objective
      case Some(obj) => ObjectiveAliases(name, short, Somes(obj.abbr), AbbrAliases(obj.abbr))
      case None => [Some(name), Some(short)];
    Candidate(name, d.side, Some([]), Some(short), Some(aliases), Some(aliases))
  }

  /** The distinct names, abbreviations and derived aliases of an objective deck. */
  function ObjectiveAliases(name: string, short: string, plain: seq<Option<string>>, derived: seq<Option<string>>): (r: seq<Option<string>>)
    ensures NoDuplicates(r) && Some(name) in r && Some(short) in r
    ensures forall x :: x in plain || x in derived ==> x in r
    ensures forall x :: x in r ==> (x == Some(name) || x == Some(short) || x in plain || x in derived)
  {
    var all := [Some(name), Some(short)] + plain + derived;
    assert forall x :: x in all <==> (x == Some(name) || x == Some(short) || x in plain || x in derived);
    assert all[0] == Some(name) && all[1] == Some(short);
    Dedup(all)
  }

  /** The registry and the `chosenSkywalker` global the archetype names thread through. */
  datatype State = State(archetypes: seq<Archetype>, chosen: Option<string>)

  /**
   * `determineArchetypeName` as the seeding steps call it: for a decklist and
   * the current `chosenSkywalker`, the name and the global's new value.
   */
  type Namer = (Decklist, Option<string>) -> Result<(string, Option<string>)>

  function ArchetypeNamer(catalog: seq<Card>): Namer
  {
    (d: Decklist, chosen: Option<string>) => ArchetypeName(DeckFinder(catalog, d), d, chosen)
  }

  /** A name `determineArchetypeName` returns is never empty. */
  ghost predicate NamesSomething(namer: Namer)
  {
    forall d, chosen :: namer(d, chosen).Success? ==> namer(d, chosen).value.0 != ""
  }

  lemma ArchetypeNamerNamesSomething(catalog: seq<Card>)
    ensures NamesSomething(ArchetypeNamer(catalog))
  {
    forall d, chosen | ArchetypeNamer(catalog)(d, chosen).Success?
      ensures ArchetypeNamer(catalog)(d, chosen).value.0 != ""
    {
      var r := ArchetypeName(DeckFinder(catalog, d), d, chosen);
      assert r == ArchetypeNamer(catalog)(d, chosen);
    }
  }

  /**
   * One decklist of `seedArchetypes`: the new state, and whether it created
   * a record. `shorten` is `mapLongNameToShortName`.
   */
  function SeedStep(namer: Namer, shorten: string -> string, st: State, d: Decklist): Result<(State, bool)>
  {
    match namer(d, st.chosen)
    case Failure => Failure
    case Success((name, sky)) =>
      var c := SeedCandidate(d, name, shorten(name));
      Success((State(CreateOrUpdateIn(st.archetypes, c), sky), FindIn(st.archetypes, Some(name)).None?))
  }

  /** A seeding step: the next state and whether a record was created, or the throw of the namer. */
  type Step = (State, Decklist) -> Result<(State, bool)>

  /** `SeedStep` with its namer and shortener fixed. */
  function SeedStepper(namer: Namer, shorten: string -> string): Step
  {
    (st: State, d: Decklist) => SeedStep(namer, shorten, st, d)
  }

  /**
   * `step` over the decklists in order: the final state and how many
   * records were created; a step that throws stops the run.
   */
  function Seeded(step: Step, st: State, ds: seq<Decklist>): Result<(State, nat)>
    decreases |ds|
  {
    if ds == [] then Success((st, 0))
    else match Seeded(step, st, ds[..|ds| - 1])
      case Failure => Failure
      case Success((mid, n)) =>
        match step(mid, ds[|ds| - 1])
        case Failure => Failure
        case Success((next, created)) => Success((next, n + if created then 1 else 0))
  }

  /**
   * `seedArchetypes` over the decklists in order: the final state and how
   * many records were created; a decklist whose name throws stops the script.
   */
  function SeedAll(namer: Namer, shorten: string -> string, st: State, ds: seq<Decklist>): Result<(State, nat)>
  {
    Seeded(SeedStepper(namer, shorten), st, ds)
  }

  /** Every record `seedArchetypes` adds is counted once: the registry grows by exactly that count. */
  lemma {:induction false} SeedAllGrowth(namer: Namer, shorten: string -> string, st: State, ds: seq<Decklist>)
    requires SeedAll(namer, shorten, st, ds).Success?
    ensures var (fin, n) := SeedAll(namer, shorten, st, ds).value; |fin.archetypes| == |st.archetypes| + n
    decreases |ds|
  {
    if ds != [] {
      SeedAllGrowth(namer, shorten, st, ds[..|ds| - 1]);
    }
  }

  /** With names that are never empty, seeding keeps every record named. */
  lemma {:induction false} SeedAllNamed(namer: Namer, shorten: string -> string, st: State, ds: seq<Decklist>)
    requires NamesSomething(namer) && AllNamed(st.archetypes)
    requires SeedAll(namer, shorten, st, ds).Success?
    ensures AllNamed(SeedAll(namer, shorten, st, ds).value.0.archetypes)
    decreases |ds|
  {
    if ds != [] {
      SeedAllNamed(namer, shorten, st, ds[..|ds| - 1]);
      var mid := SeedAll(namer, shorten, st, ds[..|ds| - 1]).value.0;
      var d := ds[|ds| - 1];
      var (name, _) := namer(d, mid.chosen).value;
      CreateOrUpdateNamed(mid.archetypes, SeedCandidate(d, name, shorten(name)));
    }
  }

  /** After its step, a decklist's archetype name finds a record. */
  lemma SeedStepFindable(namer: Namer, shorten: string -> string, st: State, d: Decklist)
    requires NamesSomething(namer) && SeedStep(namer, shorten, st, d).Success?
    ensures FindIn(SeedStep(namer, shorten, st, d).value.0.archetypes, Some(namer(d, st.chosen).value.0)).Some?
  {
    var (name, _) := namer(d, st.chosen).value;
    CreateOrUpdateFindable(st.archetypes, SeedCandidate(d, name, shorten(name)));
  }

  // ----- archetypes from decklist titles --------------------------------------------------

  /**
   * The candidate `seedDecklistArchetypesFromTitles` builds: the decklist's
   * url and raw title name, under the name of the record the raw name (or
   * else the archetype name) finds, or under the archetype name. `name ||
   * rawArchetypeName` is `name`, which is never empty. The flag says whether
   * a record was found.
   */
  function TitleCandidate(arcs: seq<Archetype>, d: Decklist, name: string, raw: Option<string>): (r: (Candidate, bool))
    ensures r.0.side == d.side && r.0.decklistUrls == Some([d.url]) && r.0.matchers == Some([raw])
    ensures r.0.shortName.None? && r.0.aliases.None?
    ensures r.1 <==> FindIn(arcs, raw).Some? || FindIn(arcs, Some(name)).Some?
    ensures !r.1 ==> r.0.name == name
    ensures r.1 ==> exists k :: 0 <= k < |arcs| && r.0.name == arcs[k].name
  {
    var found := Or(FindIn(arcs, raw), FindIn(arcs, Some(name)));
    var c := Candidate(name, d.side, Some([d.url]), None, None, Some([raw]));
    if found.Some? then (c.(name := arcs[found.value].name), true) else (c, false)
  }

  /** One decklist of `seedDecklistArchetypesFromTitles`; `rawName` is `rawArchetypeNameFromDecklistTitle`. */
  function TitleStep(namer: Namer, rawName: string -> Option<string>, st: State, d: Decklist): Result<(State, (Candidate, bool))>
  {
    match namer(d, st.chosen)
    case Failure => Failure
    case Success((name, sky)) =>
      var (c, found) := TitleCandidate(st.archetypes, d, name, rawName(d.title));
      Success((State(CreateOrUpdateIn(st.archetypes, c), sky), (c, found)))
  }

  /** The decklists in order: the final state, then the created and the updated candidates. */
  function TitleSeedAll(namer: Namer, rawName: string -> Option<string>, st: State, ds: seq<Decklist>): Result<(State, seq<Candidate>, seq<Candidate>)>
    decreases |ds|
  {
    if ds == [] then Success((st, [], []))
    else match TitleSeedAll(namer, rawName, st, ds[..|ds| - 1])
      case Failure => Failure
      case Success((mid, created, updated)) =>
        match TitleStep(namer, rawName, mid, ds[|ds| - 1])
        case Failure => Failure
        case Success((next, (c, found))) =>
          if found then Success((next, created, updated + [c])) else Success((next, created + [c], updated))
  }

  /** In a fully named registry a title step updates exactly when it found a record, and appends otherwise. */
  lemma TitleStepGrowth(namer: Namer, rawName: string -> Option<string>, st: State, d: Decklist)
    requires NamesSomething(namer) && AllNamed(st.archetypes)
    requires TitleStep(namer, rawName, st, d).Success?
    ensures var (next, (_, found)) := TitleStep(namer, rawName, st, d).value;
      |next.archetypes| == |st.archetypes| + (if found then 0 else 1) && AllNamed(next.archetypes)
  {
    var (name, _) := namer(d, st.chosen).value;
    var (c, found) := TitleCandidate(st.archetypes, d, name, rawName(d.title));
    if found {
      var k :| 0 <= k < |st.archetypes| && c.name == st.archetypes[k].name;
      MatchesOwnName(st.archetypes[k], Some(c.name));
    }
    CreateOrUpdateNamed(st.archetypes, c);
  }

  /** The registry grows by exactly the created candidates, and stays named. */
  lemma {:induction false} TitleSeedAllGrowth(namer: Namer, rawName: string -> Option<string>, st: State, ds: seq<Decklist>)
    requires NamesSomething(namer) && AllNamed(st.archetypes)
    requires TitleSeedAll(namer, rawName, st, ds).Success?
    ensures var (fin, created, updated) := TitleSeedAll(namer, rawName, st, ds).value;
      |fin.archetypes| == |st.archetypes| + |created| && AllNamed(fin.archetypes)
      && |created| + |updated| == |ds|
    decreases |ds|
  {
    if ds != [] {
      TitleSeedAllGrowth(namer, rawName, st, ds[..|ds| - 1]);
      var mid := TitleSeedAll(namer, rawName, st, ds[..|ds| - 1]).value.0;
      TitleStepGrowth(namer, rawName, mid, ds[|ds| - 1]);
    }
  }

  /** Some record lists `url`. */
  predicate Assigned(arcs: seq<Archetype>, url: Option<string>)
  {
    exists k :: 0 <= k < |arcs| && url in arcs[k].decklistUrls
  }

  /** A title step keeps every truthy url assigned and assigns its decklist's. */
  lemma TitleStepAssigns(namer: Namer, rawName: string -> Option<string>, st: State, d: Decklist, url: Option<string>)
    requires AllNamed(st.archetypes) && TitleStep(namer, rawName, st, d).Success?
    requires Truthy(url) && (Assigned(st.archetypes, url) || d.url == url)
    ensures Assigned(TitleStep(namer, rawName, st, d).value.0.archetypes, url)
  {
    var (name, _) := namer(d, st.chosen).value;
    var (c, _) := TitleCandidate(st.archetypes, d, name, rawName(d.title));
    if d.url == url {
      CreateOrUpdateAddsUrl(st.archetypes, c, url);
    } else {
      var k :| 0 <= k < |st.archetypes| && url in st.archetypes[k].decklistUrls;
      CreateOrUpdateKeepsUrl(st.archetypes, c, k, url);
    }
  }

  /** A truthy url some record lists stays listed through the title steps. */
  lemma {:induction false} TitleSeedAllKeeps(namer: Namer, rawName: string -> Option<string>, st: State, ds: seq<Decklist>, url: Option<string>)
    requires NamesSomething(namer) && AllNamed(st.archetypes)
    requires TitleSeedAll(namer, rawName, st, ds).Success?
    requires Truthy(url) && Assigned(st.archetypes, url)
    ensures Assigned(TitleSeedAll(namer, rawName, st, ds).value.0.archetypes, url)
    decreases |ds|
  {
    if ds != [] {
      var init := ds[..|ds| - 1];
      TitleSeedAllGrowth(namer, rawName, st, init);
      TitleSeedAllKeeps(namer, rawName, st, init, url);
      var mid := TitleSeedAll(namer, rawName, st, init).value.0;
      assert TitleSeedAll(namer, rawName, st, ds).value.0 == TitleStep(namer, rawName, mid, ds[|ds| - 1]).value.0;
      TitleStepAssigns(namer, rawName, mid, ds[|ds| - 1], url);
    }
  }

  /** The last decklist's truthy url is listed once its step is done. */
  lemma TitleSeedAllAssignsLast(namer: Namer, rawName: string -> Option<string>, st: State, ds: seq<Decklist>)
    requires NamesSomething(namer) && AllNamed(st.archetypes)
    requires TitleSeedAll(namer, rawName, st, ds).Success?
    requires |ds| > 0 && Truthy(ds[|ds| - 1].url)
    ensures Assigned(TitleSeedAll(namer, rawName, st, ds).value.0.archetypes, ds[|ds| - 1].url)
  {
    var init := ds[..|ds| - 1];
    TitleSeedAllGrowth(namer, rawName, st, init);
    var mid := TitleSeedAll(namer, rawName, st, init).value.0;
    TitleStepAssigns(namer, rawName, mid, ds[|ds| - 1], ds[|ds| - 1].url);
  }

  /** Every decklist with a truthy url ends up listed by some archetype. */
  lemma {:induction false} TitleSeedAllAssigns(namer: Namer, rawName: string -> Option<string>, st: State, ds: seq<Decklist>, i: nat)
    requires NamesSomething(namer) && AllNamed(st.archetypes)
    requires TitleSeedAll(namer, rawName, st, ds).Success?
    requires i < |ds| && Truthy(ds[i].url)
    ensures Assigned(TitleSeedAll(namer, rawName, st, ds).value.0.archetypes, ds[i].url)
    decreases |ds|
  {
    if i == |ds| - 1 {
      TitleSeedAllAssignsLast(namer, rawName, st, ds);
    } else {
      var init := ds[..|ds| - 1];
      assert init[i] == ds[i];
      TitleSeedAllAssigns(namer, rawName, st, init, i);
      TitleSeedAllGrowth(namer, rawName, st, init);
      var mid := TitleSeedAll(namer, rawName, st, init).value.0;
      TitleStepAssigns(namer, rawName, mid, ds[|ds| - 1], ds[i].url);
    }
  }

  /** Setting the side of one record leaves every url assignment as it was. */
  lemma PostProcessedAssigns(arcs: seq<Archetype>, url: Option<string>)
    ensures Assigned(PostProcessed(arcs), url) <==> Assigned(arcs, url)
  {
    var r := PostProcessed(arcs);
    assert forall k :: 0 <= k < |arcs| ==> r[k].decklistUrls == arcs[k].decklistUrls;
  }

  /** A successful step extends the run by one decklist. */
  lemma SeededExtends(step: Step, st: State, ds: seq<Decklist>, i: nat, mid: State, n: nat, next: State, created: bool)
    requires i < |ds| && Seeded(step, st, ds[..i]) == Success((mid, n))
    requires step(mid, ds[i]) == Success((next, created))
    ensures Seeded(step, st, ds[..i + 1]) == Success((next, n + if created then 1 else 0))
  {
    assert ds[..i + 1][..i] == ds[..i];
  }

  /** A failed step fails the whole run. */
  lemma SeededFails(step: Step, st: State, ds: seq<Decklist>, i: nat, mid: State, n: nat)
    requires i < |ds| && Seeded(step, st, ds[..i]) == Success((mid, n))
    requires step(mid, ds[i]).Failure?
    ensures Seeded(step, st, ds).Failure?
  {
    assert ds[..i + 1][..i] == ds[..i];
    SeededStops(step, st, ds, i + 1);
  }

  lemma TitleSeedAllNext(namer: Namer, rawName: string -> Option<string>, st: State, ds: seq<Decklist>, i: nat)
    requires i < |ds| && TitleSeedAll(namer, rawName, st, ds[..i]).Success?
    ensures var (mid, created, updated) := TitleSeedAll(namer, rawName, st, ds[..i]).value;
      TitleSeedAll(namer, rawName, st, ds[..i + 1]) == match TitleStep(namer, rawName, mid, ds[i])
        case Failure => Failure
        case Success((next, (c, found))) =>
          if found then Success((next, created, updated + [c])) else Success((next, created + [c], updated))
  {
    assert ds[..i + 1][..i] == ds[..i];
  }

  /** A step that throws stops the run for good. */
  lemma {:induction false} SeededStops(step: Step, st: State, ds: seq<Decklist>, j: nat)
    requires j <= |ds| && Seeded(step, st, ds[..j]).Failure?
    ensures Seeded(step, st, ds).Failure?
    decreases |ds|
  {
    if j < |ds| {
      assert ds[..|ds| - 1][..j] == ds[..j];
      SeededStops(step, st, ds[..|ds| - 1], j);
    } else {
      assert ds[..j] == ds;
    }
  }

  lemma {:induction false} TitleSeedAllStops(namer: Namer, rawName: string -> Option<string>, st: State, ds: seq<Decklist>, j: nat)
    requires j <= |ds| && TitleSeedAll(namer, rawName, st, ds[..j]).Failure?
    ensures TitleSeedAll(namer, rawName, st, ds).Failure?
    decreases |ds|
  {
    if j < |ds| {
      assert ds[..|ds| - 1][..j] == ds[..j];
      TitleSeedAllStops(namer, rawName, st, ds[..|ds| - 1], j);
    } else {
      assert ds[..j] == ds;
    }
  }

  // ----- the registry ---------------------------------------------------------------------

  /** The script's globals `allArchetypes` and `chosenSkywalker`, changed in place. */
  class Registry {
    var archetypes: seq<Archetype>
    var chosenSkywalker: Option<string>

    constructor()
      ensures archetypes == [] && chosenSkywalker == None
    {
      archetypes := [];
      chosenSkywalker := None;
    }

    function Snapshot(): State
      reads this
    {
      State(archetypes, chosenSkywalker)
    }

    /** `createArchetype`: pushes the record and returns it. */
    method Create(c: Candidate) returns (a: Archetype)
      modifies this
      ensures a == Created(c) && archetypes == old(archetypes) + [a]
      ensures chosenSkywalker == old(chosenSkywalker)
    {
      a := Archetype(c.name, c.side, if c.decklistUrls.Some? then c.decklistUrls.value else [], c.shortName,
        if c.aliases.Some? then c.aliases.value else [], if c.matchers.Some? then c.matchers.value else []);
      archetypes := archetypes + [a];
    }

    /** `updateArchetype`: the record found by `nameOrAlias`, if any, changed in place. */
    method Update(nameOrAlias: Option<string>, c: Candidate)
      modifies this
      ensures archetypes == UpdateIn(old(archetypes), nameOrAlias, c)
      ensures chosenSkywalker == old(chosenSkywalker)
    {
      var found := FindIn(archetypes, nameOrAlias);
      if found.Some? {
        var j := found.value;
        archetypes := archetypes[j := Updated(archetypes[j], c)];
      }
    }

    /** `createOrUpdateArchetype`: the created record, or `None` after an update. */
    method CreateOrUpdate(c: Candidate) returns (created: Option<Archetype>)
      modifies this
      ensures archetypes == CreateOrUpdateIn(old(archetypes), c)
      ensures created == if FindIn(old(archetypes), Some(c.name)).None? then Some(Created(c)) else None
      ensures |archetypes| == old(|archetypes|) + if created.Some? then 1 else 0
      ensures chosenSkywalker == old(chosenSkywalker)
    {
      var found := FindIn(archetypes, Some(c.name));
      if found.Some? {
        Update(Some(archetypes[found.value].name), c);
        created := None;
      } else {
        var a := Create(c);
        created := Some(a);
      }
    }

    /**
     * `seedArchetypes`: one candidate per decklist, in order. The script
     * only counts the created records it returns, so the count is returned;
     * `SeedAllGrowth` shows it is exactly how far the registry grew. The
     * script's `namer` is `ArchetypeNamer(allCards)`, its `shorten`
     * `MapLongNameToShortName`.
     */
    method SeedArchetypes(namer: Namer, shorten: string -> string, decklists: seq<Decklist>) returns (r: Result<nat>)
      modifies this
      ensures r.Success? <==> SeedAll(namer, shorten, old(Snapshot()), decklists).Success?
      ensures r.Success? ==> SeedAll(namer, shorten, old(Snapshot()), decklists).value == (Snapshot(), r.value)
    {
      var start := Snapshot();
      var n: nat := 0;
      var i := 0;
      while i < |decklists|
        invariant 0 <= i <= |decklists|
        invariant SeedAll(namer, shorten, start, decklists[..i]) == Success((Snapshot(), n))
      {
        ghost var mid := Snapshot();
        var made := SeedOne(namer, shorten, decklists[i]);
        if made.Failure? {
          SeededFails(SeedStepper(namer, shorten), start, decklists, i, mid, n);
          return Failure;
        }
        SeededExtends(SeedStepper(namer, shorten), start, decklists, i, mid, n, Snapshot(), made.value);
        if made.value {
          n := n + 1;
        }
        i := i + 1;
      }
      assert decklists[..i] == decklists;
      r := Success(n);
    }

    /** One decklist of `seedArchetypes`: whether its candidate was created. */
    method SeedOne(namer: Namer, shorten: string -> string, d: Decklist) returns (r: Result<bool>)
      modifies this
      ensures r.Failure? <==> SeedStep(namer, shorten, old(Snapshot()), d).Failure?
      ensures r.Failure? ==> Snapshot() == old(Snapshot())
      ensures r.Success? ==> SeedStep(namer, shorten, old(Snapshot()), d) == Success((Snapshot(), r.value))
    {
      var named := namer(d, chosenSkywalker);
      if named.Failure? {
        return Failure;
      }
      var (name, sky) := named.value;
      chosenSkywalker := sky;
      var made := CreateOrUpdate(SeedCandidate(d, name, shorten(name)));
      r := Success(made.Some?);
    }

    /**
     * `seedDecklistArchetypesFromTitles`: one candidate per decklist, under
     * the raw name its title gives; returns the created and the updated
     * candidates.
     */
    method SeedFromTitles(namer: Namer, rawName: string -> Option<string>, decklists: seq<Decklist>)
      returns (r: Result<(seq<Candidate>, seq<Candidate>)>)
      modifies this
      ensures r.Success? <==> TitleSeedAll(namer, rawName, old(Snapshot()), decklists).Success?
      ensures r.Success? ==> var (fin, created, updated) := TitleSeedAll(namer, rawName, old(Snapshot()), decklists).value;
        Snapshot() == fin && r.value == (created, updated)
    {
      var start := Snapshot();
      var created: seq<Candidate> := [];
      var updated: seq<Candidate> := [];
      var i := 0;
      while i < |decklists|
        invariant 0 <= i <= |decklists|
        invariant TitleSeedAll(namer, rawName, start, decklists[..i]) == Success((Snapshot(), created, updated))
      {
        TitleSeedAllNext(namer, rawName, start, decklists, i);
        var step := TitleSeedOne(namer, rawName, decklists[i]);
        if step.Failure? {
          TitleSeedAllStops(namer, rawName, start, decklists, i + 1);
          return Failure;
        }
        var (c, found) := step.value;
        if found {
          updated := updated + [c];
        } else {
          created := created + [c];
        }
        i := i + 1;
      }
      assert decklists[..i] == decklists;
      r := Success((created, updated));
    }

    /** One decklist of `seedDecklistArchetypesFromTitles`: its candidate and whether a record was found for it. */
    method TitleSeedOne(namer: Namer, rawName: string -> Option<string>, d: Decklist) returns (r: Result<(Candidate, bool)>)
      modifies this
      ensures r.Failure? <==> TitleStep(namer, rawName, old(Snapshot()), d).Failure?
      ensures r.Failure? ==> Snapshot() == old(Snapshot())
      ensures r.Success? ==> TitleStep(namer, rawName, old(Snapshot()), d) == Success((Snapshot(), r.value))
    {
      var named := namer(d, chosenSkywalker);
      if named.Failure? {
        return Failure;
      }
      var (name, sky) := named.value;
      chosenSkywalker := sky;
      var (c, found) := TitleCandidate(archetypes, d, name, rawName(d.title));
      var _ := CreateOrUpdate(c);
      r := Success((c, found));
    }

    /** `manualPostProcessing`. */
    method ManualPostProcessing()
      modifies this
      ensures archetypes == PostProcessed(old(archetypes))
      ensures chosenSkywalker == old(chosenSkywalker)
    {
      var found := FindIndex(archetypes, (a: Archetype) => a.name == "Death Star II: Throne Room According To My Design");
      if found.Some? {
        var i := found.value;
        archetypes := archetypes[i := archetypes[i].(side := Some(Dark))];
      }
    }
  }

  // ----- the whole script -----------------------------------------------------------------

  /** `ReadDecklist` over the script's cards and startable interrupts. */
  function Reader(catalog: seq<Card>, startable: seq<Card>): string -> Result<Decklist>
  {
    (txt: string) => ReadDecklist(txt, catalog, startable)
  }

  /** `filenames.map(...)`: every txt file read, in order; one that throws stops the script. */
  function ReadAll(read: string -> Result<Decklist>, txts: seq<string>): (r: Result<seq<Decklist>>)
    ensures r.Success? ==> (|r.value| == |txts|
      && forall k :: 0 <= k < |txts| ==> read(txts[k]) == Success(r.value[k]))
    ensures r.Failure? <==> exists k :: 0 <= k < |txts| && read(txts[k]).Failure?
  {
    if txts == [] then Success([])
    else match read(txts[0])
      case Failure => Failure
      case Success(d) =>
        match ReadAll(read, txts[1..])
        case Failure =>
          assert exists k :: 0 <= k < |txts| && read(txts[k]).Failure? by {
            var k :| 0 <= k < |txts[1..]| && read(txts[1..][k]).Failure?;
            assert txts[1..][k] == txts[k + 1];
          }
          Failure
        case Success(rest) =>
          assert forall k :: 1 <= k < |txts| ==> txts[k] == txts[1..][k - 1];
          Success([d] + rest)
  }

  /**
   * `allArchetypes` from the txt files: the decklists, the two seeding rounds
   * and the post-processing. The script's `read` is `Reader(allCards,
   * allStartingInterrupts)`, its `namer` `ArchetypeNamer(allCards)`, its
   * `shorten` `MapLongNameToShortName` and its `rawName`
   * `rawArchetypeNameFromDecklistTitle`.
   */
  function Pipeline(read: string -> Result<Decklist>, namer: Namer, shorten: string -> string,
                    rawName: string -> Option<string>, txts: seq<string>): Result<seq<Archetype>>
  {
    match ReadAll(read, txts)
    case Failure => Failure
    case Success(ds) =>
      match SeedAll(namer, shorten, State([], None), ds)
      case Failure => Failure
      case Success((seeded, _)) =>
        match TitleSeedAll(namer, rawName, seeded, ds)
        case Failure => Failure
        case Success((titled, _, _)) => Success(PostProcessed(titled.archetypes))
  }

  /** `allArchetypes` as the script writes it, from the two card files; the script's `shorten` is `MapLongNameToShortName`. */
  function GeneratedArchetypes(darkCards: seq<Card>, lightCards: seq<Card>, txts: seq<string>,
                               rawName: string -> Option<string>, shorten: string -> string): Result<seq<Archetype>>
  {
    match AllCards(darkCards, lightCards, " (V)")
    case Failure => Failure
    case Success(catalog) =>
      match StartingInterrupts(catalog)
      case Failure => Failure
      case Success(startable) =>
        Pipeline(Reader(catalog, startable), ArchetypeNamer(catalog), shorten, rawName, txts)
  }

  /** The registry `Pipeline` post-processes: the state after both seeding rounds. */
  lemma PipelineParts(read: string -> Result<Decklist>, namer: Namer, shorten: string -> string,
                      rawName: string -> Option<string>, txts: seq<string>)
    requires Pipeline(read, namer, shorten, rawName, txts).Success?
    ensures ReadAll(read, txts).Success?
    ensures SeedAll(namer, shorten, State([], None), ReadAll(read, txts).value).Success?
    ensures var ds := ReadAll(read, txts).value;
      var seeded := SeedAll(namer, shorten, State([], None), ds).value.0;
      && TitleSeedAll(namer, rawName, seeded, ds).Success?
      && Pipeline(read, namer, shorten, rawName, txts).value == PostProcessed(TitleSeedAll(namer, rawName, seeded, ds).value.0.archetypes)
  {
  }

  /** With names that are never empty, every archetype of the output has a name. */
  lemma PipelineNamed(read: string -> Result<Decklist>, namer: Namer, shorten: string -> string,
                      rawName: string -> Option<string>, txts: seq<string>)
    requires NamesSomething(namer)
    requires Pipeline(read, namer, shorten, rawName, txts).Success?
    ensures AllNamed(Pipeline(read, namer, shorten, rawName, txts).value)
  {
    PipelineParts(read, namer, shorten, rawName, txts);
    var ds := ReadAll(read, txts).value;
    var start := State([], None);
    SeedAllNamed(namer, shorten, start, ds);
    var seeded := SeedAll(namer, shorten, start, ds).value.0;
    TitleSeedAllGrowth(namer, rawName, seeded, ds);
    var titled := TitleSeedAll(namer, rawName, seeded, ds).value.0.archetypes;
    assert forall k :: 0 <= k < |titled| ==> PostProcessed(titled)[k].name == titled[k].name;
  }

  /** With names that are never empty, every decklist that has a url is listed by some archetype of the output. */
  lemma PipelineAssignsEveryUrl(read: string -> Result<Decklist>, namer: Namer, shorten: string -> string,
                                rawName: string -> Option<string>, txts: seq<string>, i: nat)
    requires NamesSomething(namer)
    requires Pipeline(read, namer, shorten, rawName, txts).Success?
    requires i < |txts| && Truthy(ReadAll(read, txts).value[i].url)
    ensures Assigned(Pipeline(read, namer, shorten, rawName, txts).value, ReadAll(read, txts).value[i].url)
  {
    PipelineParts(read, namer, shorten, rawName, txts);
    var ds := ReadAll(read, txts).value;
    var start := State([], None);
    SeedAllNamed(namer, shorten, start, ds);
    var seeded := SeedAll(namer, shorten, start, ds).value.0;
    TitleSeedAllAssigns(namer, rawName, seeded, ds, i);
    PostProcessedAssigns(TitleSeedAll(namer, rawName, seeded, ds).value.0.archetypes, ds[i].url);
  }

  /** The steps of `main` after the txt files are read, on one registry. */
  method RunPipeline(read: string -> Result<Decklist>, namer: Namer, shorten: string -> string,
                     rawName: string -> Option<string>, txts: seq<string>) returns (r: Result<seq<Archetype>>)
    ensures r == Pipeline(read, namer, shorten, rawName, txts)
  {
    var decklists := ReadAll(read, txts);
    if decklists.Failure? { return Failure; }
    var registry := new Registry();
    var seeded := registry.SeedArchetypes(namer, shorten, decklists.value);
    if seeded.Failure? { return Failure; }
    var titled := registry.SeedFromTitles(namer, rawName, decklists.value);
    if titled.Failure? { return Failure; }
    registry.ManualPostProcessing();
    r := Success(registry.archetypes);
  }

  /**
   * The script's `main`, after the card files are read: the registry it
   * writes to archetypes.json. The script's `shorten` is `MapLongNameToShortName`.
   */
  method BuildArchetypes(darkCards: seq<Card>, lightCards: seq<Card>, txts: seq<string>,
                         rawName: string -> Option<string>, shorten: string -> string)
    returns (r: Result<seq<Archetype>>)
    ensures r == GeneratedArchetypes(darkCards, lightCards, txts, rawName, shorten)
  {
    var cards := AllCards(darkCards, lightCards, " (V)");
    if cards.Failure? { return Failure; }
    var startable := StartingInterrupts(cards.value);
    if startable.Failure? { return Failure; }
    r := RunPipeline(Reader(cards.value, startable.value), ArchetypeNamer(cards.value), shorten, rawName, txts);
  }
}
