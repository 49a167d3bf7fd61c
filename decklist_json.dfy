/**
 * generateDecklistJson.js: a plain-text decklist becomes a JSON decklist.
 * Every card line is read for a quantity and a title, resolved against the
 * catalog and merged by title into the decklist's card list; the round and
 * format come from the decklist title, and the count sums the quantities.
 */
module DecklistJson {
  import opened Str
  import opened Lists
  import opened Cards
  import Resolver

  // ----- cleanCardTitle --------------------------------------------------------------

  /**
   * The character class of `cleanCardTitle` as the file spells it: besides
   * `<` and `>`, the three characters that the UTF-8 bytes of '•' become when
   * read as Windows-1252 ("â€¢"), and not '•' itself.
   */
  const MisencodedMarks: set<char> := {'<', '>', '\U{00E2}', '\U{20AC}', '\U{00A2}'}

  /** `cleanCardTitle(title)` as written. */
  function CleanCardTitleAsWritten(title: string): string
  {
    Resolver.CutBack(Resolver.CollapseVirtualBack(RemoveChars(title, MisencodedMarks)))
  }

  /**
   * `cleanCardTitle(title)` as intended: the cleaning of generateArchetypes.js
   * (strip `<`, `>` and '•', collapse a virtual back face, cut any other back
   * face), where an empty title stays empty.
   */
  function CleanCardTitle(title: string): (r: string)
    ensures '<' !in r && '>' !in r && '•' !in r
    ensures Resolver.NoOccurrence(r, " /")
  {
    match Resolver.CleanCardTitle(Some(title))
    case Some(u) => Resolver.CleanCardTitleChars(Some(title)); u
    case None => ""
  }

  /** Cleaning a cleaned title changes nothing. */
  lemma CleanCardTitleIdempotent(title: string)
    ensures CleanCardTitle(CleanCardTitle(title)) == CleanCardTitle(title)
  {
    if CleanCardTitle(title) != "" {
      Resolver.CleanCardTitleIdempotent(Some(title));
    }
  }

  /** As written, a leading '•' survives the cleaning. */
  lemma AsWrittenKeepsBullet(t: string)
    requires t != [] && t[0] == '•'
    ensures var u := CleanCardTitleAsWritten(t); u != [] && u[0] == '•'
  {
    var s1 := RemoveChars(t, MisencodedMarks);
    RemoveCharsHead(t, MisencodedMarks);
    ReplaceAllDotStarHead(s1, " / ", ["(V)"], " (V)");
    ReplaceAllDotStarHead(Resolver.CollapseVirtualBack(s1), " /", [""], "");
  }

  /**
   * What the misencoded class costs: a title without '•' (the plain-text
   * decklists have none) never cleans, as written, to the cleaned form of a
   * catalog title that starts with '•'; the intended cleaning ignores the
   * bullet, so the two compare equal when the rest does.
   */
  lemma BulletedTitleMissedAsWritten(q: string, ct: string)
    requires '•' !in q
    ensures CleanCardTitleAsWritten(q) != CleanCardTitleAsWritten("•" + ct)
    ensures CleanCardTitle("•" + ct) == CleanCardTitle(ct)
  {
    var s1 := RemoveChars(q, MisencodedMarks);
    ReplaceAllDotStarChars(s1, [" / "], ["(V)"], " (V)", false, '•');
    ReplaceAllDotStarChars(Resolver.CollapseVirtualBack(s1), [" /"], [""], "", false, '•');
    AsWrittenKeepsBullet("•" + ct);
    var u := CleanCardTitleAsWritten("•" + ct);
    assert u[0] in u;
    RemoveCharsSkip('•', ct, {'<', '>', '•'});
    assert Resolver.StripMarks("•" + ct) == Resolver.StripMarks(ct);
  }

  // ----- substituteTitleIfNeeded -----------------------------------------------------------

  /** `substituteTitleIfNeeded(title)`: blanked or renamed cards under their catalog titles. */
  function SubstituteTitle(title: string): string
  {
    var t1 := ReplaceFirst(title, "Ralltiir Operations (V)", "Ralltiir Operations");
    var t2 := ReplaceFirst(t1, "Macroscan (V)", "Death Star Reactor Terminal (V)");
    var t3 := ReplaceFirst(t2, "Death Star Reactor Terminal (V)", "Death Star Reactor Terminal");
    var t4 := ReplaceFirst(t3, "Evacuation Control (V)", "I Don't Like Sand");
    var t5 := ReplaceFirst(t4, "Imperial Justice (V)", "Coarse And Rough And Irritating");
    var t6 := ReplaceFirst(t5, "Imperial Domination (V)", "Imperial Enforcement");
    var t7 := ReplaceFirst(t6, "Help Me Obi-Wan Kenobi & Quite A Mercenary", "Quite A Mercenary (V)");
    var t8 := ReplaceFirst(t7, "Ability, Ability, Ability (V)", "Ability, Ability, Ability");
    var t9 := ReplaceFirst(t8, "Civil Disorder (V)", "Civil Disorder");
    var t10 := ReplaceFirst(t9, "Strategic Reserves (V)", "Strategic Reserves");
    var t11 := ReplaceFirst(t10, "Sense (V)", "Sense");
    ReplaceFirst(t11, "Macroscan (V)", "Macroscan")
  }

  /** Every substitution needs a '(' or a '&': a title with neither is left alone. */
  lemma SubstituteTitleUntouched(title: string)
    requires '(' !in title && '&' !in title
    ensures SubstituteTitle(title) == title
  {
    AbsentCharFirst(title, "Ralltiir Operations (V)", "Ralltiir Operations", '(');
    AbsentCharFirst(title, "Macroscan (V)", "Death Star Reactor Terminal (V)", '(');
    AbsentCharFirst(title, "Death Star Reactor Terminal (V)", "Death Star Reactor Terminal", '(');
    AbsentCharFirst(title, "Evacuation Control (V)", "I Don't Like Sand", '(');
    AbsentCharFirst(title, "Imperial Justice (V)", "Coarse And Rough And Irritating", '(');
    AbsentCharFirst(title, "Imperial Domination (V)", "Imperial Enforcement", '(');
    AbsentCharFirst(title, "Help Me Obi-Wan Kenobi & Quite A Mercenary", "Quite A Mercenary (V)", '&');
    AbsentCharFirst(title, "Ability, Ability, Ability (V)", "Ability, Ability, Ability", '(');
    AbsentCharFirst(title, "Civil Disorder (V)", "Civil Disorder", '(');
    AbsentCharFirst(title, "Strategic Reserves (V)", "Strategic Reserves", '(');
    AbsentCharFirst(title, "Sense (V)", "Sense", '(');
    AbsentCharFirst(title, "Macroscan (V)", "Macroscan", '(');
  }

  /** The substitutions run in sequence: "Macroscan (V)" is renamed twice. */
  lemma SubstituteMacroscan()
    ensures SubstituteTitle("Macroscan (V)") == "Death Star Reactor Terminal"
  {
    var t0 := "Macroscan (V)";
    AbsentFirst(t0, "Ralltiir Operations (V)", "Ralltiir Operations");
    PresentFirst(t0, "Macroscan (V)", "Death Star Reactor Terminal (V)");
    var t2 := "Death Star Reactor Terminal (V)";
    assert ReplaceFirst(t0, "Macroscan (V)", "Death Star Reactor Terminal (V)") == t2;
    PresentFirst(t2, t2, "Death Star Reactor Terminal");
    var t3 := "Death Star Reactor Terminal";
    assert ReplaceFirst(t2, t2, t3) == t3;
    SubstituteTitleTail(t3);
  }

  /** The substitutions after the third leave "Death Star Reactor Terminal" alone. */
  lemma SubstituteTitleTail(t3: string)
    requires t3 == "Death Star Reactor Terminal"
    ensures ReplaceFirst(ReplaceFirst(ReplaceFirst(ReplaceFirst(ReplaceFirst(ReplaceFirst(ReplaceFirst(
      ReplaceFirst(ReplaceFirst(t3,
      "Evacuation Control (V)", "I Don't Like Sand"),
      "Imperial Justice (V)", "Coarse And Rough And Irritating"),
      "Imperial Domination (V)", "Imperial Enforcement"),
      "Help Me Obi-Wan Kenobi & Quite A Mercenary", "Quite A Mercenary (V)"),
      "Ability, Ability, Ability (V)", "Ability, Ability, Ability"),
      "Civil Disorder (V)", "Civil Disorder"),
      "Strategic Reserves (V)", "Strategic Reserves"),
      "Sense (V)", "Sense"),
      "Macroscan (V)", "Macroscan") == t3
  {
    assert '(' !in t3 && '&' !in t3;
    AbsentCharFirst(t3, "Evacuation Control (V)", "I Don't Like Sand", '(');
    AbsentCharFirst(t3, "Imperial Justice (V)", "Coarse And Rough And Irritating", '(');
    AbsentCharFirst(t3, "Imperial Domination (V)", "Imperial Enforcement", '(');
    AbsentCharFirst(t3, "Help Me Obi-Wan Kenobi & Quite A Mercenary", "Quite A Mercenary (V)", '&');
    AbsentCharFirst(t3, "Ability, Ability, Ability (V)", "Ability, Ability, Ability", '(');
    AbsentCharFirst(t3, "Civil Disorder (V)", "Civil Disorder", '(');
    AbsentCharFirst(t3, "Strategic Reserves (V)", "Strategic Reserves", '(');
    AbsentCharFirst(t3, "Sense (V)", "Sense", '(');
    AbsentCharFirst(t3, "Macroscan (V)", "Macroscan", '(');
  }

  // ----- the quantity of a line ------------------------------------------------------------

  /**
   * A match of `/\s?x?(\d{1,2})x?\s?/i`: it spans `start..end` and its
   * digits lie at `digits..digitsEnd`.
   */
  datatype QtyMatch = QtyMatch(start: nat, digits: nat, digitsEnd: nat, end: nat)

  predicate IsX(c: char) { c == 'x' || c == 'X' }

  /** Past an optional character of class `p` at `j`: a `?` that takes its character when it can. */
  function Optional(s: string, j: nat, p: char -> bool): (k: nat)
    ensures k == j || (k == j + 1 && j < |s| && p(s[j]))
    ensures j < |s| && p(s[j]) ==> k == j + 1
  {
    if j < |s| && p(s[j]) then j + 1 else j
  }

  /**
   * The match that begins at `i`. Each optional part takes its character
   * when it is there: giving one up would leave a space or an `x` where a
   * digit is needed, so the regex has no other match at `i`.
   */
  function QtyMatchAt(s: string, i: nat): (r: Option<QtyMatch>)
    requires i <= |s|
    ensures r.Some? ==> r.value.start == i && i <= r.value.digits <= i + 2
    ensures r.Some? ==> r.value.digits < r.value.digitsEnd <= r.value.end <= |s|
    ensures r.Some? ==> IsDigit(s[r.value.digits]) && forall k :: i <= k < r.value.digits ==> !IsDigit(s[k])
    ensures r.Some? ==>
      r.value.digitsEnd
      == (if r.value.digits + 1 < |s| && IsDigit(s[r.value.digits + 1]) then r.value.digits + 2 else r.value.digits + 1)
    ensures i < |s| && IsDigit(s[i]) ==> r.Some?
  {
    var j := Optional(s, i, IsSpace);
    var k := Optional(s, j, IsX);
    if k < |s| && IsDigit(s[k]) then
      var d := Optional(s, k + 1, IsDigit);
      var x := Optional(s, d, IsX);
      Some(QtyMatch(i, k, d, Optional(s, x, IsSpace)))
    else None
  }

  /** The leftmost match at or after `p`. */
  function QtyMatchFrom(s: string, p: nat): (r: Option<QtyMatch>)
    requires p <= |s|
    ensures r.Some? ==> p <= r.value.start <= |s| && QtyMatchAt(s, r.value.start) == r
    decreases |s| - p
  {
    var m := QtyMatchAt(s, p);
    if m.Some? || p == |s| then m else QtyMatchFrom(s, p + 1)
  }

  /** The match found is the leftmost one. */
  lemma {:induction false} QtyMatchFromLeftmost(s: string, p: nat)
    requires p <= |s|
    ensures var r := QtyMatchFrom(s, p);
      r.Some? ==> forall q :: p <= q < r.value.start ==> QtyMatchAt(s, q).None?
    decreases |s| - p
  {
    if QtyMatchAt(s, p).None? && p < |s| {
      QtyMatchFromLeftmost(s, p + 1);
    }
  }

  /** No match is found exactly when none begins anywhere. */
  lemma {:induction false} QtyMatchFromNone(s: string, p: nat)
    requires p <= |s|
    ensures QtyMatchFrom(s, p).None? <==> forall q :: p <= q <= |s| ==> QtyMatchAt(s, q).None?
    decreases |s| - p
  {
    if QtyMatchAt(s, p).None? && p < |s| {
      QtyMatchFromNone(s, p + 1);
    }
  }

  /** `parseInt(qtyMatch[1])`, or 1 when the line has no match. */
  function LineQuantity(line: string): nat
  {
    match QtyMatchFrom(line, 0)
    case Some(m) => ParseDigits(line[m.digits..m.digitsEnd])
    case None => 1
  }

  /** `line.replace(qtyStr, "").trim()`, or the trimmed line when it has no match. */
  function LineTitle(line: string): string
  {
    match QtyMatchFrom(line, 0)
    case Some(m) => Trim(ReplaceFirst(line, line[m.start..m.end], ""))
    case None => Trim(line)
  }

  /** A line without a digit has quantity 1 and its trimmed self as its title. */
  lemma LineQuantityDefault(line: string)
    requires forall k :: 0 <= k < |line| ==> !IsDigit(line[k])
    ensures LineQuantity(line) == 1 && LineTitle(line) == Trim(line)
  {
    var m := QtyMatchFrom(line, 0);
    if m.Some? {
      NoDigitNoMatch(line, m.value.start);
      assert false;
    }
  }

  /** Without a digit in the line, no match begins anywhere. */
  lemma NoDigitNoMatch(line: string, i: nat)
    requires i <= |line| && forall k :: 0 <= k < |line| ==> !IsDigit(line[k])
    ensures QtyMatchAt(line, i).None?
  {
    var j := Optional(line, i, IsSpace);
    var k := Optional(line, j, IsX);
    assert k < |line| ==> !IsDigit(line[k]);
  }

  /**
   * The quantity is read from the first digit of the line and, when it is
   * also one, the digit after it; so it is at most 99.
   */
  lemma LineQuantityFirstDigit(line: string, k: nat)
    requires k < |line| && IsDigit(line[k]) && forall j :: 0 <= j < k ==> !IsDigit(line[j])
    ensures LineQuantity(line)
      == ParseDigits(line[k..if k + 1 < |line| && IsDigit(line[k + 1]) then k + 2 else k + 1])
    ensures LineQuantity(line) <= 99
  {
    var m := QtyMatchFrom(line, 0);
    QtyMatchFirstDigit(line, k);
    var e := m.value.digitsEnd;
    var ds := line[k..e];
    assert ParseDigits(ds[..1]) == DigitValue(ds[0]) by {
      assert ds[..1][..0] == [];
    }
    if e == k + 2 {
      assert ds[..|ds| - 1] == ds[..1];
    }
  }

  /** The first match of a line takes its digits from the line's first digit. */
  lemma QtyMatchFirstDigit(line: string, k: nat)
    requires k < |line| && IsDigit(line[k]) && forall j :: 0 <= j < k ==> !IsDigit(line[j])
    ensures QtyMatchFrom(line, 0).Some? && QtyMatchFrom(line, 0).value.digits == k
  {
    QtyMatchFromLeftmost(line, 0);
    QtyMatchFromNone(line, 0);
    assert QtyMatchAt(line, k).Some?;
  }

  // ----- the card list ------------------------------------------------------------------------

  /** A decklist card: `{ title, id, quantity }`. */
  datatype DeckCard = DeckCard(title: string, id: string, quantity: nat)

  /** No two cards share a title. */
  predicate UniqueTitles(cards: seq<DeckCard>)
  {
    forall i, j :: 0 <= i < j < |cards| ==> cards[i].title != cards[j].title
  }

  /** `cards.reduce((acc, c) => acc + c.quantity, 0)`. */
  function Total(cards: seq<DeckCard>): nat
  {
    if cards == [] then 0 else Total(cards[..|cards| - 1]) + cards[|cards| - 1].quantity
  }

  /** `insertCardIntoDecklist`: a card whose title is listed adds to that entry; a new one goes last. */
  function Inserted(cards: seq<DeckCard>, card: DeckCard): seq<DeckCard>
  {
    match FindIndex(cards, (c: DeckCard) => c.title == card.title)
    case Some(i) => cards[i := cards[i].(quantity := cards[i].quantity + card.quantity)]
    case None => cards + [card]
  }

  lemma TotalAppend(cards: seq<DeckCard>, card: DeckCard)
    ensures Total(cards + [card]) == Total(cards) + card.quantity
  {
    assert (cards + [card])[..|cards|] == cards;
  }

  /** Raising one entry's quantity by `q` raises the total by `q`. */
  lemma {:induction false} TotalRaise(cards: seq<DeckCard>, i: nat, q: nat)
    requires i < |cards|
    ensures Total(cards[i := cards[i].(quantity := cards[i].quantity + q)]) == Total(cards) + q
    decreases |cards|
  {
    var r := cards[i := cards[i].(quantity := cards[i].quantity + q)];
    var n := |cards| - 1;
    if i < n {
      TotalRaise(cards[..n], i, q);
      assert r[..n] == cards[..n][i := cards[i].(quantity := cards[i].quantity + q)];
    } else {
      assert r[..n] == cards[..n];
    }
  }

  /**
   * Inserting a card merges it into the first entry with its title, leaving
   * every other entry as it was, or appends it when its title is new; the
   * total grows by its quantity and titles stay unique.
   */
  lemma InsertedSpec(cards: seq<DeckCard>, card: DeckCard)
    ensures var r := Inserted(cards, card);
      && Total(r) == Total(cards) + card.quantity
      && (UniqueTitles(cards) ==> UniqueTitles(r))
      && ((forall j :: 0 <= j < |cards| ==> cards[j].title != card.title) ==> r == cards + [card])
      && (forall i ::
          (0 <= i < |cards| && cards[i].title == card.title
            && forall j :: 0 <= j < i ==> cards[j].title != card.title) ==>
          && |r| == |cards|
          && r[i] == cards[i].(quantity := cards[i].quantity + card.quantity)
          && forall j :: 0 <= j < |cards| && j != i ==> r[j] == cards[j])
  {
    match FindIndex(cards, (c: DeckCard) => c.title == card.title)
    case Some(i) => TotalRaise(cards, i, card.quantity);
    case None => TotalAppend(cards, card);
  }

  /** The cards after inserting each of `entries` in turn. */
  function InsertAll(cards: seq<DeckCard>, entries: seq<DeckCard>): seq<DeckCard>
    decreases |entries|
  {
    if entries == [] then cards
    else Inserted(InsertAll(cards, entries[..|entries| - 1]), entries[|entries| - 1])
  }

  /** Inserting many cards keeps titles unique and adds their quantities to the total. */
  lemma {:induction false} InsertAllSpec(cards: seq<DeckCard>, entries: seq<DeckCard>)
    ensures Total(InsertAll(cards, entries)) == Total(cards) + Total(entries)
    ensures UniqueTitles(cards) ==> UniqueTitles(InsertAll(cards, entries))
    decreases |entries|
  {
    if entries != [] {
      var init := entries[..|entries| - 1];
      InsertAllSpec(cards, init);
      InsertedSpec(InsertAll(cards, init), entries[|entries| - 1]);
    }
  }

  // ----- reading the lines ----------------------------------------------------------------------

  /** `cardTypes`: the card types in order of first appearance, any "Jedi Test …" as "Jedi Test". */
  function CardTypes(catalog: seq<Card>): seq<string>
  {
    Dedup(Map(catalog, (c: Card) => ReplaceDotStar(c.front.typ, ["Jedi Test"], [""], "Jedi Test", false)))
  }

  /**
   * `headings`: every type in capitals with an "S", then "STARTING" (which
   * `replaceAll("/", " \\/ ")` leaves as it is).
   */
  function Headings(types: seq<string>): seq<string>
  {
    Map(types, (t: string) => ToUpper(t) + "S") + ["STARTING"]
  }

  /** The lines the loop returns from at once: blank ones and heading lines, compared untrimmed. */
  predicate Ignored(line: string, headings: seq<string>)
  {
    Trim(line) == "" || line in Map(headings, ToUpper)
  }

  /**
   * The `find` predicate of the loop: the constraints of `findCard`, titles
   * compared after `clean`. The script cleans with `CleanCardTitleAsWritten`;
   * `CleanCardTitle` is the cleaning it means.
   */
  predicate Matches(q: Resolver.Query, side: Option<Side>, c: Card, clean: string -> string)
  {
    Resolver.Admits(q, side, c) && clean(q.title) == clean(c.front.title)
  }

  /**
   * As written, a query without '•' never matches a catalog card whose title
   * starts with '•', so no unique card of the plain-text decklists resolves.
   */
  lemma BulletedCardUnmatchedAsWritten(q: Resolver.Query, side: Option<Side>, c: Card)
    requires '•' !in q.title && c.front.title != [] && c.front.title[0] == '•'
    ensures !Matches(q, side, c, CleanCardTitleAsWritten)
  {
    var ct := c.front.title[1..];
    assert "•" + ct == c.front.title;
    BulletedTitleMissedAsWritten(q.title, ct);
  }

  datatype LineResult = Skip | Unresolved | Entry(card: DeckCard)

  /** The query a card line asks: its title after the substitutions, parsed as `findCard` does. */
  function LineQuery(line: string): Resolver.Query
  {
    Resolver.ParseQuery(SubstituteTitle(LineTitle(line)))
  }

  /** The `find` over the catalog and the `decklistCard` built from its result. */
  function Resolve(q: Resolver.Query, quantity: nat, catalog: seq<Card>, side: Option<Side>,
                   clean: string -> string): LineResult
  {
    match Find(catalog, (c: Card) => Matches(q, side, c, clean))
    case Some(c) => Entry(DeckCard(clean(q.title), c.gempId, quantity))
    case None => Unresolved
  }

  /**
   * A resolved entry carries the line's quantity, the cleaned query title
   * (which is the cleaned title of the card found) and the id of the first
   * catalog card the query matches; with no such card the line is dropped.
   */
  lemma ResolveSpec(q: Resolver.Query, quantity: nat, catalog: seq<Card>, side: Option<Side>,
                    clean: string -> string)
    ensures match Resolve(q, quantity, catalog, side, clean)
      case Entry(card) =>
        && card.quantity == quantity
        && card.title == clean(q.title)
        && exists i :: 0 <= i < |catalog| && catalog[i].gempId == card.id
             && Matches(q, side, catalog[i], clean) && card.title == clean(catalog[i].front.title)
             && forall j :: 0 <= j < i ==> !Matches(q, side, catalog[j], clean)
      case Unresolved => forall i :: 0 <= i < |catalog| ==> !Matches(q, side, catalog[i], clean)
      case Skip => false
  {
  }

  /** One turn of the line loop. */
  function ReadLine(line: string, headings: seq<string>, catalog: seq<Card>, side: Option<Side>,
                    clean: string -> string): LineResult
  {
    if Ignored(line, headings) then Skip
    else Resolve(LineQuery(line), LineQuantity(line), catalog, side, clean)
  }

  /** A line is skipped exactly when it is blank or a heading; every other line is resolved. */
  lemma ReadLineSkips(line: string, headings: seq<string>, catalog: seq<Card>, side: Option<Side>,
                      clean: string -> string)
    ensures ReadLine(line, headings, catalog, side, clean).Skip? <==> Ignored(line, headings)
  {
    ResolveSpec(LineQuery(line), LineQuantity(line), catalog, side, clean);
  }

  /** `ReadLine` with the headings, catalog, side and title cleaning of one decklist. */
  function LineReader(headings: seq<string>, catalog: seq<Card>, side: Option<Side>,
                      clean: string -> string): string -> LineResult
  {
    line => ReadLine(line, headings, catalog, side, clean)
  }

  /** The entries that `read` finds in `lines`, in order. */
  function Entries(lines: seq<string>, read: string -> LineResult): seq<DeckCard>
    decreases |lines|
  {
    if lines == [] then []
    else
      var init := Entries(lines[..|lines| - 1], read);
      match read(lines[|lines| - 1])
      case Entry(card) => init + [card]
      case _ => init
  }

  // ----- round and format -------------------------------------------------------------------------

  const RoundNames: seq<string> := [
    "Day 1", "Day 2", "Day 3", "Top 4", "Top 8", "Top 16", "Elite 8", "Quarterfinals",
    "Semifinals", "Semi-Finals", "Finals", "Tiebreaker", "Round 1", "Round 2"]

  /**
   * `title.match(/(n1|n2|...)/)[1]`: the leftmost name, the earlier one of
   * the list where two begin at the same index.
   */
  function RoundIn(title: string, names: seq<string>): Option<string>
  {
    match FirstAltFrom(title, names, 0, false)
    case Some((i, e)) => Some(title[i..e])
    case None => None
  }

  /** The round found is one of the names and occurs in the title; none is found only when no name occurs. */
  lemma RoundInSpec(title: string, names: seq<string>)
    ensures RoundIn(title, names).Some? ==>
      RoundIn(title, names).value in names && Contains(title, RoundIn(title, names).value)
    ensures RoundIn(title, names).None? <==> forall n :: n in names ==> !Contains(title, n)
  {
    match FirstAltFrom(title, names, 0, false)
    case Some((i, e)) =>
      var a :| a in names && OccursAtCase(title, a, i, false) && e == i + |a|;
      assert title[i..e] == a;
      ContainsIff(title, a, i);
    case None =>
      forall n | n in names ensures !Contains(title, n) {
        ContainsFindsAlt(title, names, n);
      }
  }

  /** A name that occurs in the title gives the alternation a match. */
  lemma ContainsFindsAlt(title: string, names: seq<string>, n: string)
    requires n in names
    ensures Contains(title, n) ==> FirstAltFrom(title, names, 0, false).Some?
  {
    IndexOfSpec(title, n);
    if Contains(title, n) {
      assert FirstAltAt(title, names, IndexOf(title, n), |title|, false).Some?;
    }
  }

  /** `round && round != "Day 1" ? "Match Play" : "Swiss"`. */
  function FormatOf(round: string): string
  {
    if round != "" && round != "Day 1" then "Match Play" else "Swiss"
  }

  /** For a round name the format is "Swiss" exactly for "Day 1". */
  lemma FormatOfRound(round: string)
    requires round in RoundNames
    ensures FormatOf(round) == "Swiss" <==> round == "Day 1"
    ensures FormatOf(round) == "Swiss" || FormatOf(round) == "Match Play"
  {
    assert "" !in RoundNames;
  }

  // ----- inferSide --------------------------------------------------------------------------------

  /** `/Knowledge.{1,5}Defense/i` matching at `i` of the lowered text `t`, with `n` characters between the words. */
  predicate KnowledgeGap(t: string, i: nat, n: nat)
  {
    && OccursAt(t, "knowledge", i)
    && 1 <= n <= 5
    && i + 9 + n <= |t|
    && (forall k :: i + 9 <= k < i + 9 + n ==> !IsLineTerminator(t[k]))
    && OccursAt(t, "defense", i + 9 + n)
  }

  predicate KnowledgeDefense(s: string)
  {
    var t := ToLower(s);
    exists i, n :: 0 <= i < |t| && 1 <= n <= 5 && KnowledgeGap(t, i, n)
  }

  /**
   * `/Anger,? Fear,? Agg?ression/i` matching at `i` of the lowered text `t`.
   * Each optional character is taken when it is there; without it the next
   * literal would have to begin on that character, which it does not.
   */
  predicate AngerFearAt(t: string, i: nat)
  {
    && OccursAt(t, "anger", i)
    && var j := Optional(t, i + 5, c => c == ',');
    && OccursAt(t, " fear", j)
    && var k := Optional(t, j + 5, c => c == ',');
    && OccursAt(t, " ag", k)
    && var m := Optional(t, k + 3, c => c == 'g');
    && OccursAt(t, "ression", m)
  }

  predicate AngerFear(s: string)
  {
    var t := ToLower(s);
    exists i :: 0 <= i < |t| && AngerFearAt(t, i)
  }

  /**
   * `inferSide(decklist)`: a side named by the plaintext wins over one named
   * by the title, and there is no side only when neither names one.
   */
  function InferSide(title: string, plaintext: string): (r: Option<Side>)
    ensures KnowledgeDefense(plaintext) ==> r == Some(Dark)
    ensures r.None? <==>
      !KnowledgeDefense(plaintext) && !AngerFear(plaintext) && !Contains(title, " DS ") && !Contains(title, " LS ")
  {
    var fromTitle :=
      if Contains(title, " DS ") then Some(Dark) else if Contains(title, " LS ") then Some(Light) else None;
    var fromText :=
      if KnowledgeDefense(plaintext) then Some(Dark) else if AngerFear(plaintext) then Some(Light) else None;
    if fromText.Some? then fromText else fromTitle
  }

  /** The lowered text of `s` holds `w` (given in lower case) where `s` holds `u`. */
  lemma LoweredAt(s: string, u: string, w: string, i: nat)
    requires OccursAt(s, u, i) && |u| == |w| && forall k :: 0 <= k < |u| ==> Lower(u[k]) == w[k]
    ensures OccursAt(ToLower(s), w, i)
  {
    ToLowerSlice(s, i, i + |u|);
    assert ToLower(u) == w;
  }

  lemma KnowledgeAndDefense(t: string, i: nat)
    requires OccursAt(t, "knowledge and defense", i)
    ensures KnowledgeGap(t, i, 5)
  {
    var w := t[i..i + 21];
    assert t[i..i + 9] == w[..9];
    assert t[i + 14..i + 21] == w[14..];
    assert forall k :: i + 9 <= k < i + 14 ==> t[k] == w[k - i];
  }

  /** A plaintext naming Knowledge And Defense makes the side Dark, whatever the title says. */
  lemma InferSideKnowledge(title: string, plaintext: string)
    requires Contains(plaintext, "Knowledge And Defense")
    ensures InferSide(title, plaintext) == Some(Dark)
  {
    IndexOfSpec(plaintext, "Knowledge And Defense");
    var i := IndexOf(plaintext, "Knowledge And Defense");
    LoweredAt(plaintext, "Knowledge And Defense", "knowledge and defense", i);
    KnowledgeAndDefense(ToLower(plaintext), i);
  }

  lemma AngerFearAggression(t: string, i: nat)
    requires OccursAt(t, "anger, fear, aggression", i)
    ensures AngerFearAt(t, i)
  {
    var w := t[i..i + 23];
    assert t[i..i + 5] == w[..5];
    assert t[i + 5] == w[5] == ',';
    assert t[i + 6..i + 11] == w[6..11];
    assert t[i + 11] == w[11] == ',';
    assert t[i + 12..i + 15] == w[12..15];
    assert t[i + 15] == w[15] == 'g';
    assert t[i + 16..i + 23] == w[16..];
  }

  /** Without Knowledge/Defense, a plaintext naming Anger, Fear, Aggression makes the side Light. */
  lemma InferSideAnger(title: string, plaintext: string)
    requires Contains(plaintext, "Anger, Fear, Aggression") && !KnowledgeDefense(plaintext)
    ensures InferSide(title, plaintext) == Some(Light)
  {
    IndexOfSpec(plaintext, "Anger, Fear, Aggression");
    var i := IndexOf(plaintext, "Anger, Fear, Aggression");
    AngerLowered(plaintext, i);
    AngerFearAggression(ToLower(plaintext), i);
  }

  lemma AngerLowered(s: string, i: nat)
    requires OccursAt(s, "Anger, Fear, Aggression", i)
    ensures OccursAt(ToLower(s), "anger, fear, aggression", i)
  {
    LoweredAt(s, "Anger, Fear, Aggression", "anger, fear, aggression", i);
  }

  /** With neither card name in the plaintext, " DS " and then " LS " in the title decide, else no side. */
  lemma InferSideFromTitle(title: string, plaintext: string)
    requires !KnowledgeDefense(plaintext) && !AngerFear(plaintext)
    ensures InferSide(title, plaintext)
      == if Contains(title, " DS ") then Some(Dark) else if Contains(title, " LS ") then Some(Light) else None
  {
  }

  // ----- the decklist record ------------------------------------------------------------------------

  /** The decklist object the loop over the plain-text files builds and writes out. */
  class Decklist {
    var slug: string
    var title: string
    var date: Option<string>
    var url: Option<string>
    var plaintext: string
    var side: Option<Side>
    var cards: seq<DeckCard>
    var round: Option<string>
    var format: Option<string>
    var count: nat

    /** `{ slug: filename.split(".")[0], cards: [] }`. */
    constructor (filename: string)
      ensures slug == Split(filename, '.')[0] && cards == []
      ensures title == "" && date.None? && url.None? && plaintext == "" && side.None?
      ensures round.None? && format.None? && count == 0
    {
      slug := Split(filename, '.')[0];
      title := "";
      date := None;
      url := None;
      plaintext := "";
      side := None;
      cards := [];
      round := None;
      format := None;
      count := 0;
    }

    /** `insertCardIntoDecklist(decklist, card)`. */
    method InsertCard(card: DeckCard)
      modifies this
      ensures cards == Inserted(old(cards), card)
      ensures slug == old(slug) && title == old(title) && date == old(date) && url == old(url)
      ensures plaintext == old(plaintext) && side == old(side)
      ensures round == old(round) && format == old(format) && count == old(count)
    {
      var i := 0;
      while i < |cards| && cards[i].title != card.title
        invariant 0 <= i <= |cards|
        invariant forall j :: 0 <= j < i ==> cards[j].title != card.title
      {
        i := i + 1;
      }
      if i < |cards| {
        cards := cards[i := cards[i].(quantity := cards[i].quantity + card.quantity)];
      } else {
        cards := cards + [card];
      }
    }

    /** `lines.slice(3).forEach(...)`: every entry is inserted, in order. */
    method ReadCards(lines: seq<string>, read: string -> LineResult)
      modifies this
      ensures cards == InsertAll(old(cards), Entries(lines, read))
      ensures slug == old(slug) && title == old(title) && date == old(date) && url == old(url)
      ensures plaintext == old(plaintext) && side == old(side)
      ensures round == old(round) && format == old(format) && count == old(count)
    {
      var n: nat := 0;
      while n < |lines|
        invariant n <= |lines|
        invariant cards == InsertAll(old(cards), Entries(lines[..n], read))
        invariant slug == old(slug) && title == old(title) && date == old(date) && url == old(url)
        invariant plaintext == old(plaintext) && side == old(side)
        invariant round == old(round) && format == old(format) && count == old(count)
      {
        assert lines[..n + 1][..n] == lines[..n];
        var es := Entries(lines[..n], read);
        match read(lines[n]) {
          case Entry(card) =>
            InsertCard(card);
            assert (es + [card])[..|es|] == es;
          case _ =>
        }
        n := n + 1;
      }
      assert lines[..n] == lines;
    }

    /** `[title, date, url] = lines.slice(0, 3)` and `plaintext = lines.slice(4).join("\n")`. */
    method ReadHeader(lines: seq<string>)
      requires |lines| >= 1
      modifies this
      ensures title == lines[0]
      ensures date == (if |lines| > 1 then Some(lines[1]) else None)
      ensures url == (if |lines| > 2 then Some(lines[2]) else None)
      ensures plaintext == Join(if |lines| >= 4 then lines[4..] else [], "\n")
      ensures slug == old(slug) && side == old(side) && cards == old(cards)
      ensures round == old(round) && format == old(format) && count == old(count)
    {
      title := lines[0];
      date := if |lines| > 1 then Some(lines[1]) else None;
      url := if |lines| > 2 then Some(lines[2]) else None;
      plaintext := Join(if |lines| >= 4 then lines[4..] else [], "\n");
    }

    /** The round is the first of `names` in the title, and the format follows from it; the loop passes `RoundNames`. */
    method SetRound(names: seq<string>)
      modifies this
      ensures match RoundIn(title, names)
        case Some(r) => round == Some(r) && format == Some(FormatOf(r))
        case None => round == old(round) && format == old(format)
      ensures slug == old(slug) && title == old(title) && date == old(date) && url == old(url)
      ensures plaintext == old(plaintext) && side == old(side) && cards == old(cards) && count == old(count)
    {
      var r := RoundIn(title, names);
      if r.Some? {
        round := r;
        format := Some(FormatOf(r.value));
      }
    }

    /** `decklist.count`: the sum of the quantities. */
    method SetCount()
      modifies this
      ensures count == Total(cards)
      ensures slug == old(slug) && title == old(title) && date == old(date) && url == old(url)
      ensures plaintext == old(plaintext) && side == old(side) && cards == old(cards)
      ensures round == old(round) && format == old(format)
    {
      count := Total(cards);
    }
  }

  /**
   * One decklist of the loop over the plain-text files: its header lines, the
   * side of its archetype (`None` without one), the cards of the lines after
   * the third, then its round, format and count. Titles are compared after
   * `clean`: `CleanCardTitleAsWritten` gives the script as written,
   * `CleanCardTitle` the script as meant.
   */
  method ParseDecklist(filename: string, txt: string, catalog: seq<Card>, side: Option<Side>,
                       clean: string -> string) returns (d: Decklist)
    ensures fresh(d)
    ensures var lines := Resolver.SplitLines(txt);
      var read := LineReader(Headings(CardTypes(catalog)), catalog, side, clean);
      && d.title == lines[0] && d.side == side
      && d.cards == InsertAll([], Entries(if |lines| >= 3 then lines[3..] else [], read))
      && d.count == Total(d.cards)
    ensures UniqueTitles(d.cards)
    ensures d.round.Some? ==> d.round.value in RoundNames && Contains(d.title, d.round.value)
    ensures d.round.Some? ==> d.format.Some? && (d.format == Some("Swiss") <==> d.round == Some("Day 1"))
  {
    var lines := Resolver.SplitLines(txt);
    d := new Decklist(filename);
    d.ReadHeader(lines);
    d.side := side;
    var read := LineReader(Headings(CardTypes(catalog)), catalog, side, clean);
    var body := if |lines| >= 3 then lines[3..] else [];
    d.ReadCards(body, read);
    InsertAllSpec([], Entries(body, read));
    d.SetRound(RoundNames);
    RoundInSpec(d.title, RoundNames);
    if d.round.Some? {
      FormatOfRound(d.round.value);
    }
    d.SetCount();
  }
}
