/**
 * The `main` of generatePlayers.js: the url-to-archetype lookup table, the
 * first pass that reads each decklist text file and either registers its
 * player or defers it, and the second pass that gives each deferred
 * decklist to the first player whose name or alias its title contains.
 *
 * The functions that read the title and clean the name are parameters of
 * the specifications (`prepare`, `matcher`, `clean`); `GeneratePlayers`
 * instantiates the first with the model's own `fixSpecificDecklistTitles`
 * and `matchableDecklistTitle`, and takes `clean`, so that it runs either
 * `cleanPlayerName` as written or as meant.
 */
module PlayerRegistry {
  import opened Str
  import opened Lists
  import opened Cards
  import Resolver
  import Players
  import PlayerTitles

  /** An entry of the players list. */
  datatype Player = Player(name: string, decklistUrls: seq<string>, aliases: seq<string>)

  /** A decklist whose title the player regex did not match (lines 134-137). */
  datatype Unmatched = Unmatched(matchableTitle: string, decklistUrl: string)

  /** The fields of an archetypes.json record that this script reads. */
  datatype Archetype = Archetype(name: string, shortName: Option<string>, aliases: seq<string>,
                                 side: Option<Side>, decklistUrls: seq<string>)

  // ----- the lookup table (lines 73-77) --------------------------------------------------

  /** `m[u] = a` for every `u` of `urls`, in order. */
  function WithUrls(m: map<string, Archetype>, a: Archetype, urls: seq<string>): map<string, Archetype>
    decreases |urls|
  {
    if urls == [] then m else WithUrls(m, a, urls[..|urls| - 1])[urls[|urls| - 1] := a]
  }

  /** `archetypeLookupTable` after the nested `forEach` over all archetypes. */
  function LookupTable(archetypes: seq<Archetype>): map<string, Archetype>
    decreases |archetypes|
  {
    if archetypes == [] then map[]
    else
      var last := archetypes[|archetypes| - 1];
      WithUrls(LookupTable(archetypes[..|archetypes| - 1]), last, last.decklistUrls)
  }

  lemma {:induction false} WithUrlsSpec(m: map<string, Archetype>, a: Archetype, urls: seq<string>)
    ensures forall u :: u in WithUrls(m, a, urls) <==> u in m || u in urls
    ensures forall u :: u in urls ==> WithUrls(m, a, urls)[u] == a
    ensures forall u :: u in m && u !in urls ==> WithUrls(m, a, urls)[u] == m[u]
    decreases |urls|
  {
    if urls != [] {
      var init := urls[..|urls| - 1];
      WithUrlsSpec(m, a, init);
      assert urls == init + [urls[|urls| - 1]];
    }
  }

  /** Some archetype at or after index `k` lists `url`. */
  predicate ListedFrom(archetypes: seq<Archetype>, url: string, k: nat)
  {
    exists j :: k <= j < |archetypes| && url in archetypes[j].decklistUrls
  }

  /**
   * A url is in the table exactly when some archetype lists it, and it is
   * mapped to the LAST archetype that does: later archetypes overwrite.
   */
  lemma {:induction false} LookupLastWins(archetypes: seq<Archetype>, url: string)
    ensures url in LookupTable(archetypes) <==> ListedFrom(archetypes, url, 0)
    ensures forall k :: 0 <= k < |archetypes| && url in archetypes[k].decklistUrls && !ListedFrom(archetypes, url, k + 1) ==>
      LookupTable(archetypes)[url] == archetypes[k]
    decreases |archetypes|
  {
    if archetypes != [] {
      var n := |archetypes| - 1;
      var init := archetypes[..n];
      var last := archetypes[n];
      LookupLastWins(init, url);
      WithUrlsSpec(LookupTable(init), last, last.decklistUrls);
      if ListedFrom(init, url, 0) {
        var j :| 0 <= j < |init| && url in init[j].decklistUrls;
        assert url in archetypes[j].decklistUrls;
      }
      if ListedFrom(archetypes, url, 0) && url !in last.decklistUrls {
        var j :| 0 <= j < |archetypes| && url in archetypes[j].decklistUrls;
        assert url in init[j].decklistUrls;
      }
      forall k | 0 <= k < |archetypes| && url in archetypes[k].decklistUrls && !ListedFrom(archetypes, url, k + 1)
        ensures LookupTable(archetypes)[url] == archetypes[k]
      {
        if k < n {
          assert url !in archetypes[n].decklistUrls;
          assert url in init[k].decklistUrls;
          forall j | k + 1 <= j < |init| ensures url !in init[j].decklistUrls {
            assert init[j] == archetypes[j];
          }
        }
      }
    }
  }

  /** Lines 73-77 as the script runs them: one assignment per url. */
  method BuildLookupTable(archetypes: seq<Archetype>) returns (table: map<string, Archetype>)
    ensures table == LookupTable(archetypes)
  {
    table := map[];
    var i := 0;
    while i < |archetypes|
      invariant 0 <= i <= |archetypes|
      invariant table == LookupTable(archetypes[..i])
    {
      var a := archetypes[i];
      var j := 0;
      while j < |a.decklistUrls|
        invariant 0 <= j <= |a.decklistUrls|
        invariant table == WithUrls(LookupTable(archetypes[..i]), a, a.decklistUrls[..j])
      {
        assert a.decklistUrls[..j + 1][..j] == a.decklistUrls[..j];
        table := table[a.decklistUrls[j] := a];
        j := j + 1;
      }
      assert a.decklistUrls[..j] == a.decklistUrls;
      assert archetypes[..i + 1][..i] == archetypes[..i];
      i := i + 1;
    }
    assert archetypes[..i] == archetypes;
  }

  /**
   * Lines 278-280: every archetype's aliases, name and short name, flattened;
   * a missing short name is `undefined`, which `join` writes as nothing.
   */
  function AllNames(archetypes: seq<Archetype>): (names: seq<string>)
    ensures |names| == |archetypes| * 2 + TotalAliases(archetypes)
    ensures forall x :: x in names <==> exists a :: a in archetypes && x in NamesOf(a)
    decreases |archetypes|
  {
    if archetypes == [] then []
    else
      var init := archetypes[..|archetypes| - 1];
      var last := archetypes[|archetypes| - 1];
      assert forall a :: a in archetypes <==> a in init || a == last;
      AllNames(init) + NamesOf(last)
  }

  /** What one archetype contributes to the alternation: its aliases, its name, then its short name or "". */
  function NamesOf(a: Archetype): seq<string>
  {
    a.aliases + [a.name, if a.shortName.Some? then a.shortName.value else ""]
  }

  function TotalAliases(archetypes: seq<Archetype>): nat
    decreases |archetypes|
  {
    if archetypes == [] then 0 else TotalAliases(archetypes[..|archetypes| - 1]) + |archetypes[|archetypes| - 1].aliases|
  }

  /** Where the names of archetype `k` begin in `AllNames`: after two names and the aliases of each archetype before it. */
  function BlockStart(archetypes: seq<Archetype>, k: nat): nat
    requires k <= |archetypes|
  {
    2 * k + TotalAliases(archetypes[..k])
  }

  /**
   * The alternation tries the archetypes in registry order, and within one
   * archetype its aliases, then its name, then its short name (or "").
   */
  lemma {:induction false} AllNamesBlocks(archetypes: seq<Archetype>, k: nat)
    requires k < |archetypes|
    ensures BlockStart(archetypes, k) + |NamesOf(archetypes[k])| == BlockStart(archetypes, k + 1) <= |AllNames(archetypes)|
    ensures AllNames(archetypes)[BlockStart(archetypes, k)..BlockStart(archetypes, k + 1)] == NamesOf(archetypes[k])
    decreases |archetypes|
  {
    BlockStartNext(archetypes, k);
    var n := |archetypes|;
    if k == n - 1 {
      LastBlock(archetypes);
    } else {
      var init := archetypes[..n - 1];
      AllNamesBlocks(init, k);
      EarlierBlock(archetypes, k);
    }
  }

  lemma BlockStartNext(archetypes: seq<Archetype>, k: nat)
    requires k < |archetypes|
    ensures BlockStart(archetypes, k + 1) == BlockStart(archetypes, k) + |NamesOf(archetypes[k])|
  {
    assert archetypes[..k + 1][..k] == archetypes[..k];
  }

  /** The last archetype's names end the list. */
  lemma LastBlock(archetypes: seq<Archetype>)
    requires archetypes != []
    ensures var n := |archetypes|;
      BlockStart(archetypes, n - 1) == |AllNames(archetypes[..n - 1])|
      && AllNames(archetypes) == AllNames(archetypes[..n - 1]) + NamesOf(archetypes[n - 1])
  {
    var n := |archetypes|;
    assert archetypes[..n - 1] == archetypes[..n - 1][..n - 1];
  }

  /** The names of an earlier archetype sit where they sat without the last one. */
  lemma EarlierBlock(archetypes: seq<Archetype>, k: nat)
    requires k + 1 < |archetypes|
    ensures var init := archetypes[..|archetypes| - 1];
      BlockStart(init, k) == BlockStart(archetypes, k) && BlockStart(init, k + 1) == BlockStart(archetypes, k + 1)
      && AllNames(archetypes) == AllNames(init) + NamesOf(archetypes[|archetypes| - 1])
  {
    var init := archetypes[..|archetypes| - 1];
    assert init[..k] == archetypes[..k] && init[..k + 1] == archetypes[..k + 1];
  }


  // ----- registering a matched player (lines 107-124) ------------------------------------

  /** `players.find((p) => clean(p.name) == name)`, as an index. */
  function Holder(players: seq<Player>, name: string, clean: string -> string): (k: Option<nat>)
    ensures k.Some? ==> k.value < |players| && clean(players[k.value].name) == name
    ensures k.Some? ==> forall j :: 0 <= j < k.value ==> clean(players[j].name) != name
    ensures k.None? ==> forall j :: 0 <= j < |players| ==> clean(players[j].name) != name
  {
    FindIndex(players, (p: Player) => clean(p.name) == name)
  }

  /**
   * The players list after a decklist at `url` matched with raw player name
   * `raw`: a new player under the cleaned name, or the url and the alias
   * added to the first player whose cleaned name is the same.
   */
  function Registered(players: seq<Player>, url: string, raw: string, clean: string -> string): seq<Player>
  {
    var name := clean(raw);
    match Holder(players, name, clean)
    case None => players + [Player(name, [url], [raw])]
    case Some(k) =>
      players[k := players[k].(decklistUrls := players[k].decklistUrls + [url],
                               aliases := Dedup(players[k].aliases + [raw]))]
  }

  /** `Registered` in words: who is created, who grows, and that nobody else changes. */
  lemma RegisteredSpec(players: seq<Player>, url: string, raw: string, clean: string -> string)
    ensures var r := Registered(players, url, raw, clean);
      (forall j :: 0 <= j < |players| ==> clean(players[j].name) != clean(raw)) ==>
        |r| == |players| + 1 && r[..|players|] == players && r[|players|] == Player(clean(raw), [url], [raw])
    ensures var r := Registered(players, url, raw, clean);
      forall k :: 0 <= k < |players| && clean(players[k].name) == clean(raw) &&
                  (forall j :: 0 <= j < k ==> clean(players[j].name) != clean(raw)) ==>
        |r| == |players| &&
        (forall j :: 0 <= j < |players| && j != k ==> r[j] == players[j]) &&
        r[k].name == players[k].name &&
        r[k].decklistUrls == players[k].decklistUrls + [url] &&
        (forall x :: x in r[k].aliases <==> x in players[k].aliases || x == raw) &&
        NoDuplicates(r[k].aliases)
  {
    var h := Holder(players, clean(raw), clean);
    if h.None? {
      assert (players + [Player(clean(raw), [url], [raw])])[..|players|] == players;
    }
  }

  /** The number of decklist urls held by all players together. */
  function TotalUrls(players: seq<Player>): nat
    decreases |players|
  {
    if players == [] then 0 else TotalUrls(players[..|players| - 1]) + |players[|players| - 1].decklistUrls|
  }

  lemma {:induction false} TotalUrlsAppend(players: seq<Player>, p: Player)
    ensures TotalUrls(players + [p]) == TotalUrls(players) + |p.decklistUrls|
  {
    assert (players + [p])[..|players|] == players;
  }

  lemma {:induction false} TotalUrlsUpdate(players: seq<Player>, k: nat, p: Player)
    requires k < |players|
    ensures TotalUrls(players[k := p]) + |players[k].decklistUrls| == TotalUrls(players) + |p.decklistUrls|
    decreases |players|
  {
    var n := |players| - 1;
    var q := players[k := p];
    assert q[..n] == if k < n then players[..n][k := p] else players[..n];
    if k < n {
      TotalUrlsUpdate(players[..n], k, p);
    }
  }

  /** Every registration adds exactly one url to the players, whichever player gets it. */
  lemma RegisteredUrls(players: seq<Player>, url: string, raw: string, clean: string -> string)
    ensures TotalUrls(Registered(players, url, raw, clean)) == TotalUrls(players) + 1
  {
    match Holder(players, clean(raw), clean)
    case None => TotalUrlsAppend(players, Player(clean(raw), [url], [raw]));
    case Some(k) =>
      var p := players[k];
      TotalUrlsUpdate(players, k, p.(decklistUrls := p.decklistUrls + [url], aliases := Dedup(p.aliases + [raw])));
  }

  /** Every player holds a url and a raw name, the latter without repeats. */
  predicate WellFormed(players: seq<Player>)
  {
    forall i :: 0 <= i < |players| ==>
      |players[i].decklistUrls| >= 1 && |players[i].aliases| >= 1 && NoDuplicates(players[i].aliases)
  }

  lemma RegisteredWellFormed(players: seq<Player>, url: string, raw: string, clean: string -> string)
    requires WellFormed(players)
    ensures WellFormed(Registered(players, url, raw, clean))
  {
    match Holder(players, clean(raw), clean)
    case None =>
    case Some(k) =>
      var a := players[k].aliases + [raw];
      assert a[0] in Dedup(a);
  }

  /**
   * The registry the script means to build: every name is already clean,
   * and no two players carry the same name.
   */
  predicate Canonical(players: seq<Player>, clean: string -> string)
  {
    (forall i :: 0 <= i < |players| ==> clean(players[i].name) == players[i].name) &&
    (forall i, j :: 0 <= i < j < |players| ==> players[i].name != players[j].name)
  }

  /** When cleaning leaves the cleaned name alone, registering keeps the registry canonical. */
  lemma RegisteredCanonical(players: seq<Player>, url: string, raw: string, clean: string -> string)
    requires Canonical(players, clean)
    requires clean(clean(raw)) == clean(raw)
    ensures Canonical(Registered(players, url, raw, clean), clean)
  {
  }

  /** A name nobody holds yet makes a new player at the end. */
  lemma RegisterNew(players: seq<Player>, url: string, raw: string, clean: string -> string)
    requires forall j :: 0 <= j < |players| ==> clean(players[j].name) != clean(raw)
    ensures Registered(players, url, raw, clean) == players + [Player(clean(raw), [url], [raw])]
  {
    assert Holder(players, clean(raw), clean).None?;
  }

  /** A name first held by player `k` grows that player. */
  lemma RegisterHit(players: seq<Player>, url: string, raw: string, clean: string -> string, k: nat)
    requires k < |players| && clean(players[k].name) == clean(raw)
    requires forall j :: 0 <= j < k ==> clean(players[j].name) != clean(raw)
    ensures Registered(players, url, raw, clean) ==
      players[k := players[k].(decklistUrls := players[k].decklistUrls + [url],
                               aliases := Dedup(players[k].aliases + [raw]))]
  {
    assert Holder(players, clean(raw), clean) == Some(k);
  }

  /**
   * The same raw name registered twice, on an empty slot: it merges into one
   * player exactly when cleaning is idempotent on the cleaned name, and
   * otherwise leaves two players of the same name.
   */
  lemma RegisterTwice(players: seq<Player>, u1: string, u2: string, raw: string, clean: string -> string)
    requires forall j :: 0 <= j < |players| ==> clean(players[j].name) != clean(raw)
    ensures var r := Registered(Registered(players, u1, raw, clean), u2, raw, clean);
      clean(clean(raw)) == clean(raw) ==> r == players + [Player(clean(raw), [u1, u2], [raw])]
    ensures var r := Registered(Registered(players, u1, raw, clean), u2, raw, clean);
      clean(clean(raw)) != clean(raw) ==>
        r == players + [Player(clean(raw), [u1], [raw]), Player(clean(raw), [u2], [raw])] &&
        !Canonical(r, clean)
  {
    RegisterNew(players, u1, raw, clean);
    if clean(clean(raw)) == clean(raw) {
      RegisterTwiceMerges(players, u1, u2, raw, clean);
    } else {
      RegisterTwiceSplits(players, u1, u2, raw, clean);
    }
  }

  /** `RegisterTwice` when cleaning is idempotent on the cleaned name. */
  lemma RegisterTwiceMerges(players: seq<Player>, u1: string, u2: string, raw: string, clean: string -> string)
    requires forall j :: 0 <= j < |players| ==> clean(players[j].name) != clean(raw)
    requires clean(clean(raw)) == clean(raw)
    ensures Registered(Registered(players, u1, raw, clean), u2, raw, clean) == players + [Player(clean(raw), [u1, u2], [raw])]
  {
    var n := clean(raw);
    var once := players + [Player(n, [u1], [raw])];
    RegisterNew(players, u1, raw, clean);
    assert once[|players|].name == n;
    assert forall j :: 0 <= j < |players| ==> once[j] == players[j];
    RegisterHit(once, u2, raw, clean, |players|);
    var p := Player(n, [u1], [raw]);
    assert once[|players|] == p;
    MergedEntry(n, u1, u2, raw);
    ReplaceLast(players, p, Player(n, [u1, u2], [raw]));
  }

  /** The player one url and one alias made, grown by a second url under the same alias. */
  lemma MergedEntry(n: string, u1: string, u2: string, raw: string)
    ensures var p := Player(n, [u1], [raw]);
      p.(decklistUrls := p.decklistUrls + [u2], aliases := Dedup(p.aliases + [raw])) == Player(n, [u1, u2], [raw])
  {
    assert [raw] + [raw] == [raw, raw];
    DedupRepeat(raw);
  }

  /** Replacing the last element of `xs + [a]`. */
  lemma ReplaceLast<T>(xs: seq<T>, a: T, b: T)
    ensures (xs + [a])[|xs| := b] == xs + [b]
  {
  }

  /** `RegisterTwice` when it is not: two players of the same name. */
  lemma RegisterTwiceSplits(players: seq<Player>, u1: string, u2: string, raw: string, clean: string -> string)
    requires forall j :: 0 <= j < |players| ==> clean(players[j].name) != clean(raw)
    requires clean(clean(raw)) != clean(raw)
    ensures var r := Registered(Registered(players, u1, raw, clean), u2, raw, clean);
      r == players + [Player(clean(raw), [u1], [raw]), Player(clean(raw), [u2], [raw])] && !Canonical(r, clean)
  {
    var n := clean(raw);
    var once := players + [Player(n, [u1], [raw])];
    RegisterNew(players, u1, raw, clean);
    assert once[|players|].name == n;
    assert forall j :: 0 <= j < |players| ==> once[j] == players[j];
    RegisterNew(once, u2, raw, clean);
    var r := once + [Player(n, [u2], [raw])];
    assert r[|players|].name == r[|players| + 1].name;
  }

  /**
   * Two decklists of `Jonas Hagen`: with line 202 corrected they go to one
   * player `Jonas Hagen Nørregaard`.
   */
  lemma JonasMerged(r: string, t: string, u1: string, u2: string)
    requires Spelled(r, "Jonas Hagen") && Spelled(t, " N\U{00F8}rregaard")
    ensures Registered(Registered([], u1, r, Players.CleanPlayerName), u2, r, Players.CleanPlayerName) ==
      [Player(r + t, [u1, u2], [r])]
  {
    Players.CleanJonas(r, t);
    RegisterTwice([], u1, u2, r, Players.CleanPlayerName);
  }

  /**
   * As written, the same two decklists give two players, both named
   * `Jonas Hagen Nørregaard`: the registry is no longer canonical.
   */
  lemma JonasSplit(r: string, t: string, u1: string, u2: string)
    requires Spelled(r, "Jonas Hagen") && Spelled(t, " N\U{00F8}rregaard")
    ensures var ps := Registered(Registered([], u1, r, Players.CleanPlayerNameAsWritten), u2, r, Players.CleanPlayerNameAsWritten);
      ps == [Player(r + t, [u1], [r]), Player(r + t, [u2], [r])] && !Canonical(ps, Players.CleanPlayerNameAsWritten)
  {
    Players.CleanJonasAsWritten(r, t);
    RegisterTwice([], u1, u2, r, Players.CleanPlayerNameAsWritten);
  }

  // ----- the first pass over the decklist files (lines 87-139) -----------------------------

  /**
   * Lines 340-353: the player is the fifth capture group, trimmed; a group
   * that took no part is `undefined`, which `cleanPlayerName` cannot clean.
   */
  function PlayerNameFromMatches(groups: seq<Option<string>>): (name: Option<string>)
    ensures name.Some? <==> |groups| > 5 && groups[5].Some?
    ensures name.Some? ==> name.value == Trim(groups[5].value)
  {
    if |groups| > 5 && groups[5].Some? then Some(Trim(groups[5].value)) else None
  }

  /** What one decklist file contributes to the first pass. */
  datatype Reading = Matched(url: string, raw: string) | Deferred(entry: Unmatched)

  /**
   * Lines 91-103 for one text file: its first line is the title, its third
   * the url. A file with fewer than three lines or a url the lookup table
   * lacks makes `decklistArchetype.side` throw. `prepare` rewrites the title
   * (fixSpecificDecklistTitles, then matchableDecklistTitle) and `matcher`
   * is the player regex of the archetype.
   */
  function ReadDecklist(txt: string, lookup: map<string, Archetype>,
                        prepare: (string, Option<Side>) -> string,
                        matcher: (string, Archetype) -> Option<seq<Option<string>>>): Result<Reading>
  {
    var lines := Resolver.SplitLines(txt);
    if |lines| < 3 || lines[2] !in lookup then Failure
    else
      var url := lines[2];
      var archetype := lookup[url];
      var title := prepare(lines[0], archetype.side);
      match matcher(title, archetype)
      case None => Success(Deferred(Unmatched(title, url)))
      case Some(groups) =>
        match PlayerNameFromMatches(groups)
        case None => Failure
        case Some(raw) => Success(Matched(url, raw))
  }

  /** The outcome of a file names its third line as the url, and that url has an archetype. */
  lemma ReadDecklistSpec(txt: string, lookup: map<string, Archetype>,
                         prepare: (string, Option<Side>) -> string,
                         matcher: (string, Archetype) -> Option<seq<Option<string>>>)
    ensures var lines := Resolver.SplitLines(txt);
      ReadDecklist(txt, lookup, prepare, matcher).Success? ==> |lines| >= 3 && lines[2] in lookup
    ensures var lines := Resolver.SplitLines(txt);
      match ReadDecklist(txt, lookup, prepare, matcher)
      case Success(Matched(url, raw)) =>
        url == lines[2] && matcher(prepare(lines[0], lookup[url].side), lookup[url]).Some?
      case Success(Deferred(u)) =>
        u.decklistUrl == lines[2] && u.matchableTitle == prepare(lines[0], lookup[u.decklistUrl].side) &&
        matcher(u.matchableTitle, lookup[u.decklistUrl]).None?
      case Failure =>
        |lines| < 3 || lines[2] !in lookup ||
        PlayerNameFromMatches(matcher(prepare(lines[0], lookup[lines[2]].side), lookup[lines[2]]).value).None?
  {
  }

  /** The two arrays `main` fills in the first pass. */
  datatype Tally = Tally(players: seq<Player>, unmatched: seq<Unmatched>)

  /** One file's contribution taken into the tally. */
  function Take(t: Tally, r: Reading, clean: string -> string): Tally
  {
    match r
    case Matched(url, raw) => Tally(Registered(t.players, url, raw, clean), t.unmatched)
    case Deferred(u) => Tally(t.players, t.unmatched + [u])
  }

  /**
   * The first pass over `files`, in order, from `start`, where `read` is
   * what one file contributes; any bad file aborts the script.
   */
  function FirstPassFrom(start: Tally, files: seq<string>, read: string -> Result<Reading>, clean: string -> string): Result<Tally>
    decreases |files|
  {
    if files == [] then Success(start)
    else
      match FirstPassFrom(start, files[..|files| - 1], read, clean)
      case Failure => Failure
      case Success(t) =>
        match read(files[|files| - 1])
        case Failure => Failure
        case Success(r) => Success(Take(t, r, clean))
  }

  /** The first pass succeeds exactly when every file can be read. */
  lemma {:induction false} FirstPassSucceeds(start: Tally, files: seq<string>, read: string -> Result<Reading>, clean: string -> string)
    ensures FirstPassFrom(start, files, read, clean).Success? <==>
      forall i :: 0 <= i < |files| ==> read(files[i]).Success?
    decreases |files|
  {
    if files != [] {
      var init := files[..|files| - 1];
      FirstPassSucceeds(start, init, read, clean);
      assert forall i :: 0 <= i < |init| ==> init[i] == files[i];
    }
  }

  /**
   * Every file read in the first pass is accounted for once: as a url held
   * by a player, or as a deferred title.
   */
  lemma {:induction false} FirstPassCounts(start: Tally, files: seq<string>, read: string -> Result<Reading>, clean: string -> string)
    ensures var r := FirstPassFrom(start, files, read, clean);
      r.Success? ==>
        TotalUrls(r.value.players) + |r.value.unmatched| == TotalUrls(start.players) + |start.unmatched| + |files|
    ensures var r := FirstPassFrom(start, files, read, clean);
      r.Success? && WellFormed(start.players) ==> WellFormed(r.value.players)
    decreases |files|
  {
    if files != [] {
      var init := files[..|files| - 1];
      FirstPassCounts(start, init, read, clean);
      match FirstPassFrom(start, init, read, clean)
      case Failure =>
      case Success(t) =>
        match read(files[|files| - 1])
        case Failure =>
        case Success(r) =>
          match r
          case Matched(url, raw) =>
            RegisteredUrls(t.players, url, raw, clean);
            if WellFormed(start.players) {
              RegisteredWellFormed(t.players, url, raw, clean);
            }
          case Deferred(u) =>
    }
  }

  /** With a cleaner that is idempotent, the first pass keeps the registry canonical. */
  lemma {:induction false} FirstPassCanonical(start: Tally, files: seq<string>, read: string -> Result<Reading>, clean: string -> string)
    requires forall x :: clean(clean(x)) == clean(x)
    requires Canonical(start.players, clean)
    ensures var r := FirstPassFrom(start, files, read, clean);
      r.Success? ==> Canonical(r.value.players, clean)
    decreases |files|
  {
    if files != [] {
      var init := files[..|files| - 1];
      FirstPassCanonical(start, init, read, clean);
      match FirstPassFrom(start, init, read, clean)
      case Failure =>
      case Success(t) =>
        match read(files[|files| - 1])
        case Failure =>
        case Success(r) =>
          match r
          case Matched(url, raw) => RegisteredCanonical(t.players, url, raw, clean);
          case Deferred(u) =>
    }
  }

  // ----- the second pass (lines 145-161) ---------------------------------------------------

  /** The title contains the player's name or one of the player's aliases. */
  predicate Claims(p: Player, title: string)
  {
    Contains(title, p.name) || exists a :: a in p.aliases && Contains(title, a)
  }

  /** The first player claiming the title. */
  function Claimant(players: seq<Player>, title: string): (k: Option<nat>)
    ensures k.Some? ==> k.value < |players| && Claims(players[k.value], title)
    ensures k.Some? ==> forall j :: 0 <= j < k.value ==> !Claims(players[j], title)
    ensures k.None? ==> forall j :: 0 <= j < |players| ==> !Claims(players[j], title)
  {
    FindIndex(players, (p: Player) => Claims(p, title))
  }

  /** One deferred decklist handed to its claimant, if any. */
  function Assigned(players: seq<Player>, u: Unmatched): seq<Player>
  {
    match Claimant(players, u.matchableTitle)
    case None => players
    case Some(k) => players[k := players[k].(decklistUrls := players[k].decklistUrls + [u.decklistUrl])]
  }

  /** The whole second pass, in the order the decklists were deferred. */
  function AssignAll(players: seq<Player>, us: seq<Unmatched>): seq<Player>
    decreases |us|
  {
    if us == [] then players else Assigned(AssignAll(players, us[..|us| - 1]), us[|us| - 1])
  }

  /**
   * Reference for the second pass: the urls of the deferred decklists whose
   * titles player `i` of the list as it stood after the first pass claims first.
   */
  function ClaimedUrls(players: seq<Player>, us: seq<Unmatched>, i: nat): seq<string>
    decreases |us|
  {
    if us == [] then []
    else
      var u := us[|us| - 1];
      ClaimedUrls(players, us[..|us| - 1], i) + (if Claimant(players, u.matchableTitle) == Some(i) then [u.decklistUrl] else [])
  }

  /** Reference for the second pass: the deferred decklists nobody claims (the second ERROR). */
  function Unclaimed(players: seq<Player>, us: seq<Unmatched>): seq<Unmatched>
    decreases |us|
  {
    if us == [] then []
    else
      var u := us[|us| - 1];
      Unclaimed(players, us[..|us| - 1]) + (if Claimant(players, u.matchableTitle).None? then [u] else [])
  }

  /** Two lists of the same players, up to their urls. */
  predicate SameClaimants(ps: seq<Player>, qs: seq<Player>)
  {
    |ps| == |qs| && forall i :: 0 <= i < |ps| ==> ps[i].name == qs[i].name && ps[i].aliases == qs[i].aliases
  }

  /** Claims look only at names and aliases, so the urls do not change the claimant. */
  lemma SameClaimant(ps: seq<Player>, qs: seq<Player>, title: string)
    requires SameClaimants(ps, qs)
    ensures Claimant(ps, title) == Claimant(qs, title)
  {
    assert forall i :: 0 <= i < |ps| ==> (Claims(ps[i], title) <==> Claims(qs[i], title));
  }

  /**
   * The second pass creates nobody, renames nobody, and gives each player
   * exactly the urls of the deferred decklists that player claims first,
   * in order; claims are judged on the players as the first pass left them.
   */
  lemma {:induction false} AssignAllSpec(players: seq<Player>, us: seq<Unmatched>)
    ensures var r := AssignAll(players, us);
      |r| == |players| &&
      forall i :: 0 <= i < |players| ==>
        r[i] == players[i].(decklistUrls := players[i].decklistUrls + ClaimedUrls(players, us, i))
    decreases |us|
  {
    if us == [] {
      forall i | 0 <= i < |players|
        ensures players[i] == players[i].(decklistUrls := players[i].decklistUrls + ClaimedUrls(players, us, i))
      {
        assert players[i].decklistUrls + [] == players[i].decklistUrls;
      }
    } else {
      var init := us[..|us| - 1];
      var u := us[|us| - 1];
      AssignAllSpec(players, init);
      var q := AssignAll(players, init);
      assert SameClaimants(players, q);
      SameClaimant(players, q, u.matchableTitle);
      var r := AssignAll(players, us);
      assert r == Assigned(q, u);
      forall i | 0 <= i < |players|
        ensures r[i] == players[i].(decklistUrls := players[i].decklistUrls + ClaimedUrls(players, us, i))
      {
        AssignedEntry(players, q, u, i, ClaimedUrls(players, init, i));
      }
    }
  }

  /** One deferred decklist: player `i` gains its url exactly when `i` is its claimant. */
  lemma AssignedEntry(players: seq<Player>, q: seq<Player>, u: Unmatched, i: nat, before: seq<string>)
    requires |q| == |players| && i < |players|
    requires q[i] == players[i].(decklistUrls := players[i].decklistUrls + before)
    requires Claimant(q, u.matchableTitle) == Claimant(players, u.matchableTitle)
    ensures |Assigned(q, u)| == |q|
    ensures Assigned(q, u)[i] == players[i].(decklistUrls := players[i].decklistUrls
      + (before + if Claimant(players, u.matchableTitle) == Some(i) then [u.decklistUrl] else []))
  {
    var p := players[i];
    if Claimant(players, u.matchableTitle) == Some(i) {
      assert p.decklistUrls + before + [u.decklistUrl] == p.decklistUrls + (before + [u.decklistUrl]);
    } else {
      assert before + [] == before;
    }
  }

  /**
   * Every deferred decklist is accounted for once: as a new url of exactly
   * one player, or as unclaimed.
   */
  lemma {:induction false} AssignAllCounts(players: seq<Player>, us: seq<Unmatched>)
    ensures TotalUrls(AssignAll(players, us)) + |Unclaimed(players, us)| == TotalUrls(players) + |us|
    ensures SameClaimants(players, AssignAll(players, us))
    ensures WellFormed(players) ==> WellFormed(AssignAll(players, us))
    decreases |us|
  {
    if us != [] {
      var init := us[..|us| - 1];
      var u := us[|us| - 1];
      AssignAllCounts(players, init);
      var q := AssignAll(players, init);
      SameClaimant(players, q, u.matchableTitle);
      match Claimant(q, u.matchableTitle)
      case None =>
      case Some(k) =>
        TotalUrlsUpdate(q, k, q[k].(decklistUrls := q[k].decklistUrls + [u.decklistUrl]));
    }
  }

  /** The second pass leaves a canonical registry canonical: names do not change. */
  lemma AssignAllCanonical(players: seq<Player>, us: seq<Unmatched>, clean: string -> string)
    requires Canonical(players, clean)
    ensures Canonical(AssignAll(players, us), clean)
  {
    AssignAllCounts(players, us);
  }

  // ----- the registry as main keeps it --------------------------------------------------------

  /** The `players` and `noMatchTheFirstTime` arrays of `main`. */
  class PlayerRegistry {
    var players: seq<Player>
    var unmatched: seq<Unmatched>

    constructor ()
      ensures players == [] && unmatched == []
    {
      players := [];
      unmatched := [];
    }

    /** Lines 107-124: find the player by cleaned name, then create or grow it. */
    method Record(url: string, raw: string, clean: string -> string)
      modifies this
      ensures players == Registered(old(players), url, raw, clean)
      ensures unmatched == old(unmatched)
    {
      var name := clean(raw);
      var k := 0;
      while k < |players| && clean(players[k].name) != name
        invariant 0 <= k <= |players|
        invariant forall j :: 0 <= j < k ==> clean(players[j].name) != name
      {
        k := k + 1;
      }
      if k == |players| {
        RegisterNew(players, url, raw, clean);
        players := players + [Player(name, [url], [raw])];
      } else {
        RegisterHit(players, url, raw, clean, k);
        var p := players[k];
        players := players[k := p.(decklistUrls := p.decklistUrls + [url], aliases := Dedup(p.aliases + [raw]))];
      }
    }

    /** Lines 87-139: the first pass; `ok` is false when a file makes the script throw. */
    method FirstPass(files: seq<string>, read: string -> Result<Reading>, clean: string -> string) returns (ok: bool)
      modifies this
      ensures var r := FirstPassFrom(Tally(old(players), old(unmatched)), files, read, clean);
        ok == r.Success? && (ok ==> Tally(players, unmatched) == r.value)
    {
      ghost var start := Tally(players, unmatched);
      var i := 0;
      while i < |files|
        invariant 0 <= i <= |files|
        invariant FirstPassFrom(start, files[..i], read, clean) == Success(Tally(players, unmatched))
      {
        assert files[..i + 1][..i] == files[..i];
        match read(files[i]) {
          case Failure =>
            FirstPassSucceeds(start, files, read, clean);
            return false;
          case Success(Matched(url, raw)) =>
            Record(url, raw, clean);
          case Success(Deferred(u)) =>
            unmatched := unmatched + [u];
        }
        i := i + 1;
      }
      assert files[..i] == files;
      return true;
    }

    /** Lines 145-161: each deferred decklist goes to the first player claiming its title. */
    method SecondPass()
      modifies this
      ensures players == AssignAll(old(players), old(unmatched))
      ensures unmatched == old(unmatched)
    {
      var i := 0;
      while i < |unmatched|
        invariant 0 <= i <= |unmatched|
        invariant unmatched == old(unmatched)
        invariant players == AssignAll(old(players), unmatched[..i])
      {
        var u := unmatched[i];
        var k := 0;
        while k < |players| && !Claims(players[k], u.matchableTitle)
          invariant 0 <= k <= |players|
          invariant forall j :: 0 <= j < k ==> !Claims(players[j], u.matchableTitle)
        {
          k := k + 1;
        }
        assert unmatched[..i + 1][..i] == unmatched[..i];
        if k < |players| {
          assert Claimant(players, u.matchableTitle) == Some(k);
          players := players[k := players[k].(decklistUrls := players[k].decklistUrls + [u.decklistUrl])];
        } else {
          assert Claimant(players, u.matchableTitle).None?;
        }
        i := i + 1;
      }
      assert unmatched[..i] == unmatched;
    }
  }

  // ----- main (lines 62-172) ------------------------------------------------------------------

  /** The title rewrites applied before the player regex, with all archetype names known. */
  function Prepare(names: seq<string>): (string, Option<Side>) -> string
  {
    (title: string, side: Option<Side>) =>
      PlayerTitles.MatchableDecklistTitle(PlayerTitles.FixSpecificDecklistTitles(title, side, names))
  }

  /** `ReadDecklist` over a fixed lookup table, title rewrite and matcher. */
  function Reader(lookup: map<string, Archetype>, prepare: (string, Option<Side>) -> string,
                  matcher: (string, Archetype) -> Option<seq<Option<string>>>): string -> Result<Reading>
  {
    (txt: string) => ReadDecklist(txt, lookup, prepare, matcher)
  }

  /** Both passes with the given reader and cleaner. */
  function BothPasses(files: seq<string>, read: string -> Result<Reading>, clean: string -> string): Result<seq<Player>>
  {
    match FirstPassFrom(Tally([], []), files, read, clean)
    case Failure => Failure
    case Success(t) => Success(AssignAll(t.players, t.unmatched))
  }

  /**
   * Each decklist file ends up either in exactly one player's urls or among
   * those the second pass reports unclaimed; every player holds a url.
   */
  lemma BothPassesAccount(files: seq<string>, read: string -> Result<Reading>, clean: string -> string)
    ensures var r := BothPasses(files, read, clean);
      r.Success? <==> forall i :: 0 <= i < |files| ==> read(files[i]).Success?
    ensures var f := FirstPassFrom(Tally([], []), files, read, clean);
      f.Success? ==>
        TotalUrls(AssignAll(f.value.players, f.value.unmatched)) + |Unclaimed(f.value.players, f.value.unmatched)| == |files| &&
        WellFormed(AssignAll(f.value.players, f.value.unmatched))
  {
    FirstPassSucceeds(Tally([], []), files, read, clean);
    FirstPassCounts(Tally([], []), files, read, clean);
    var f := FirstPassFrom(Tally([], []), files, read, clean);
    if f.Success? {
      AssignAllCounts(f.value.players, f.value.unmatched);
    }
  }

  /**
   * The players of generatePlayers.js before sorting, for the given archetypes
   * and text files; names are cleaned by `clean`, which is
   * `Players.CleanPlayerNameAsWritten` in the script as written and
   * `Players.CleanPlayerName` as meant.
   */
  function PlayersSpec(archetypes: seq<Archetype>, files: seq<string>,
                       matcher: (string, Archetype) -> Option<seq<Option<string>>>,
                       clean: string -> string): Result<seq<Player>>
  {
    BothPasses(files, Reader(LookupTable(archetypes), Prepare(AllNames(archetypes)), matcher), clean)
  }

  /** Lines 62-161: load the lookup table, run both passes, return the players. */
  method GeneratePlayers(archetypes: seq<Archetype>, files: seq<string>,
                         matcher: (string, Archetype) -> Option<seq<Option<string>>>,
                         clean: string -> string) returns (r: Result<seq<Player>>)
    ensures r == PlayersSpec(archetypes, files, matcher, clean)
  {
    var lookup := BuildLookupTable(archetypes);
    var registry := new PlayerRegistry();
    var ok := registry.FirstPass(files, Reader(lookup, Prepare(AllNames(archetypes)), matcher), clean);
    if !ok {
      return Failure;
    }
    registry.SecondPass();
    return Success(registry.players);
  }
}
