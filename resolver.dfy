/**
 * Card-title cleaning and the card resolver of generateArchetypes.js:
 * `cleanCardTitle`, `comparableString`, `findCard`, `findCardInDecklist`,
 * `cardTitleFromLine` and `determineStartingSectionCards`.
 */
module Resolver {
  import opened Str
  import opened Lists
  import opened Cards

  // ----- cleanCardTitle -------------------------------------------------------

  /** `replaceAll(/[<>•]/g, "")`. */
  function StripMarks(s: string): string
  {
    RemoveChars(s, {'<', '>', '•'})
  }

  /** `replaceAll(/ \/ .*\(V\)/g, " (V)")`: a virtual back face collapses to " (V)". */
  function CollapseVirtualBack(s: string): string
  {
    ReplaceAllDotStar(s, [" / "], ["(V)"], " (V)", false)
  }

  /** `replaceAll(/ \/.*()/g, "")`: any other back face is cut to the end of its line. */
  function CutBack(s: string): string
  {
    ReplaceAllDotStar(s, [" /"], [""], "", false)
  }

  /** `cleanCardTitle(title)`: `null` for a falsy title. */
  function CleanCardTitle(title: Option<string>): Option<string>
  {
    if Truthy(title) then Some(CutBack(CollapseVirtualBack(StripMarks(title.value)))) else None
  }

  /** `s` has no occurrence of `p` at any index. */
  predicate NoOccurrence(s: string, p: string)
  {
    forall j :: 0 <= j <= |s| ==> !OccursAt(s, p, j)
  }

  lemma CutBackHead(t: string)
    requires t != [] && t[0] != ' '
    ensures CutBack(t) != [] && CutBack(t)[0] == t[0]
  {
    DotStarFromLeftmost(t, [" /"], [""], 0, false);
    DotStarToLineEnd(t, " /", 0);
  }

  lemma NoSlashConcat(x: string, y: string)
    requires NoOccurrence(x, " /") && NoOccurrence(y, " /")
    requires y == [] || y[0] != '/'
    ensures NoOccurrence(x + y, " /")
  {
    forall j | 0 <= j <= |x + y| ensures !OccursAt(x + y, " /", j) {
      if j + 2 <= |x| {
        assert (x + y)[j..j + 2] == x[j..j + 2];
        assert !OccursAt(x, " /", j);
      } else if j >= |x| && j + 2 <= |x + y| {
        assert (x + y)[j..j + 2] == y[j - |x|..j - |x| + 2];
        assert !OccursAt(y, " /", j - |x|);
      } else if j + 2 <= |x + y| {
        assert j == |x| - 1 && y != [];
        assert (x + y)[j..j + 2][1] == (x + y)[j + 1] == y[0];
        assert " /"[1] == '/';
      }
    }
  }

  /** After `CutBack` no " /" is left anywhere. */
  lemma {:induction false} CutBackNoSlash(s: string)
    ensures NoOccurrence(CutBack(s), " /")
    decreases |s|
  {
    DotStarFromLeftmost(s, [" /"], [""], 0, false);
    match DotStarFrom(s, [" /"], [""], 0, false)
    case None =>
      forall j | 0 <= j <= |s| ensures !OccursAt(s, " /", j) {
        DotStarToLineEnd(s, " /", j);
      }
    case Some((i, e)) =>
      DotStarToLineEnd(s, " /", i);
      CutBackNoSlash(s[e..]);
      CutBackCut(s, i, e);
  }

  /** One cut: the text before the first " /" and the cut rest contain no " /". */
  lemma CutBackCut(s: string, i: nat, e: nat)
    requires DotStarFrom(s, [" /"], [""], 0, false) == Some((i, e))
    requires NoOccurrence(CutBack(s[e..]), " /")
    ensures NoOccurrence(CutBack(s), " /")
  {
    CutBackSplit(s, i, e);
    DotStarFromLeftmost(s, [" /"], [""], 0, false);
    PrefixNoSlash(s, i);
    var t := s[e..];
    if t != [] {
      assert t[0] == s[e];
      CutBackHead(t);
    }
    NoSlashConcat(s[..i], CutBack(t));
  }

  /** The first " /" at `i` is cut up to the end of its line `e`. */
  lemma CutBackSplit(s: string, i: nat, e: nat)
    requires DotStarFrom(s, [" /"], [""], 0, false) == Some((i, e))
    ensures i + 2 <= e <= |s| && (e < |s| ==> IsLineTerminator(s[e]))
    ensures CutBack(s) == s[..i] + CutBack(s[e..])
  {
    DotStarLineCut(s, " /", i, e);
  }

  lemma PrefixNoSlash(s: string, i: nat)
    requires i <= |s|
    requires forall q :: 0 <= q < i ==> DotStarAt(s, [" /"], [""], q, false).None?
    ensures NoOccurrence(s[..i], " /")
  {
    forall j | 0 <= j <= i ensures !OccursAt(s[..i], " /", j) {
      if j + 2 <= i {
        DotStarToLineEnd(s, " /", j);
        assert s[..i][j..j + 2] == s[j..j + 2];
      }
    }
  }

  lemma StripNoMarks(s: string)
    requires '<' !in s && '>' !in s && '•' !in s
    ensures StripMarks(s) == s
  {
  }

  /** What a cleaned title cannot contain. */
  lemma CleanCardTitleChars(title: Option<string>)
    requires CleanCardTitle(title).Some?
    ensures var u := CleanCardTitle(title).value;
      '<' !in u && '>' !in u && '•' !in u && NoOccurrence(u, " /")
  {
    var s1 := StripMarks(title.value);
    var s2 := CollapseVirtualBack(s1);
    ReplaceAllDotStarChars(s1, [" / "], ["(V)"], " (V)", false, '<');
    ReplaceAllDotStarChars(s1, [" / "], ["(V)"], " (V)", false, '>');
    ReplaceAllDotStarChars(s1, [" / "], ["(V)"], " (V)", false, '•');
    ReplaceAllDotStarChars(s2, [" /"], [""], "", false, '<');
    ReplaceAllDotStarChars(s2, [" /"], [""], "", false, '>');
    ReplaceAllDotStarChars(s2, [" /"], [""], "", false, '•');
    CutBackNoSlash(s2);
  }

  /** `cleanCardTitle` is `null` exactly on falsy titles. */
  lemma CleanCardTitleNull(title: Option<string>)
    ensures CleanCardTitle(title).None? <==> !Truthy(title)
  {
  }

  /** Cleaning a non-empty cleaned title changes nothing. */
  lemma CleanCardTitleIdempotent(title: Option<string>)
    requires Truthy(CleanCardTitle(title))
    ensures CleanCardTitle(CleanCardTitle(title)) == CleanCardTitle(title)
  {
    var u := CleanCardTitle(title).value;
    CleanCardTitleChars(title);
    StripNoMarks(u);
    forall j | 0 <= j <= |u| ensures !OccursAt(u, " / ", j) {
      if j + 3 <= |u| {
        assert u[j..j + 3][..2] == u[j..j + 2];
        assert !OccursAt(u, " /", j);
        assert " / "[..2] == " /";
      }
    }
    forall j | 0 <= j <= |u| ensures !OccursAt(u, " /", j) { }
    NoStartAbsent(u, " / ", ["(V)"]);
    NoStartAbsent(u, " /", [""]);
  }

  lemma NoStartAbsent(u: string, a: string, bs: seq<string>)
    requires NoOccurrence(u, a)
    ensures ReplaceAllDotStar(u, [a], bs, if bs == [""] then "" else " (V)", false) == u
  {
    DotStarFromLeftmost(u, [a], bs, 0, false);
    forall q | 0 <= q <= |u| ensures DotStarAt(u, [a], bs, q, false).None? {
      NoStartDotStarAt(u, [a], bs, q, false);
    }
  }

  // ----- comparableString -------------------------------------------------------

  /** `comparableString(str)`: lower-case, then keep only `a`-`z` (digits go too). */
  function ComparableString(s: string): (r: string)
    ensures forall k :: 0 <= k < |r| ==> IsAsciiLower(r[k])
  {
    KeepChars(ToLower(s), IsAsciiLower)
  }

  lemma ComparableStringIdempotent(s: string)
    ensures ComparableString(ComparableString(s)) == ComparableString(s)
  {
    var r := ComparableString(s);
    assert ToLower(r) == r;
  }

  lemma ComparableStringExample()
    ensures ComparableString("BB-8") == "bb"
  {
  }

  // ----- findCard -------------------------------------------------------------------

  /** A title prepared for lookup: the title to compare, the Episode I flag, the set to match. */
  datatype Query = Query(title: string, ep1: bool, cardSet: Option<string>)

  /**
   * The leftmost match of `/\((Cloud City|Special Edition)\)/`: the matched
   * text and the set it maps to ("5" or "7").
   */
  function SetQualifier(t: string): (r: Option<(string, string)>)
    ensures r.Some? ==> Contains(t, r.value.0)
    ensures r.None? <==> !Contains(t, "(Cloud City)") && !Contains(t, "(Special Edition)")
    ensures r.Some? ==> r.value.1 == "5" || r.value.1 == "7"
  {
    var cc := IndexOf(t, "(Cloud City)");
    var se := IndexOf(t, "(Special Edition)");
    if cc >= 0 && (se < 0 || cc < se) then Some(("(Cloud City)", "5"))
    else if se >= 0 then Some(("(Special Edition)", "7"))
    else None
  }

  /**
   * The rewriting `findCard` does before its search. The strip of the set
   * qualifier uses the whole match, parentheses included, so it looks for
   * " ((Cloud City))" and in practice removes nothing.
   */
  function ParseQuery(title: string): Query
  {
    var ep1 := Contains(title, "(Episode I)");
    var t1 := if ep1 then ReplaceFirst(title, " (Episode I)", "") else title;
    match SetQualifier(t1)
    case None => Query(t1, ep1, None)
    case Some((m, code)) => Query(ReplaceFirst(t1, " (" + m + ")", ""), ep1, Some(code))
  }

  /** The query keeps its Episode I flag and set exactly when the title carries them. */
  lemma ParseQuerySpec(title: string)
    ensures ParseQuery(title).ep1 <==> Contains(title, "(Episode I)")
    ensures var t1 := if Contains(title, "(Episode I)") then ReplaceFirst(title, " (Episode I)", "") else title;
      && (ParseQuery(title).cardSet.Some? <==> Contains(t1, "(Cloud City)") || Contains(t1, "(Special Edition)"))
      && (Contains(t1, "(Cloud City)") && !Contains(t1, "(Special Edition)") ==> ParseQuery(title).cardSet == Some("5"))
      && (Contains(t1, "(Special Edition)") && !Contains(t1, "(Cloud City)") ==> ParseQuery(title).cardSet == Some("7"))
      && (!Contains(t1, " ((") ==> ParseQuery(title).title == t1)
  {
    var t1 := if Contains(title, "(Episode I)") then ReplaceFirst(title, " (Episode I)", "") else title;
    match SetQualifier(t1)
    case None =>
    case Some((m, code)) =>
      if !Contains(t1, " ((") {
        var p := " (" + m + ")";
        IndexOfSpec(t1, p);
        IndexOfSpec(t1, " ((");
        if IndexOf(t1, p) >= 0 {
          var i := IndexOf(t1, p);
          assert t1[i..i + 3] == p[..3] == " ((";
          assert OccursAt(t1, " ((", i);
        }
      }
  }

  /** The constraints of the `find` predicate besides the title. */
  predicate Admits(q: Query, side: Option<Side>, c: Card)
  {
    && (!q.ep1 || "Episode I" in c.front.icons)
    && (q.cardSet.None? || c.cardSet == q.cardSet.value)
    && (side.None? || side.value == c.side)
  }

  /** The whole `find` predicate of `findCard`. */
  predicate Resolves(q: Query, side: Option<Side>, c: Card)
  {
    Admits(q, side, c) && CleanCardTitle(Some(q.title)) == CleanCardTitle(Some(c.front.title))
  }

  /**
   * `findCard(cardTitle, side)` over the catalog; `None` is `undefined`. A
   * card found is a catalog card the query resolves to, and none is found
   * only when the query resolves to no catalog card.
   */
  function FindCard(catalog: seq<Card>, title: string, side: Option<Side>): (r: Option<Card>)
    ensures r.Some? ==> r.value in catalog && Resolves(ParseQuery(title), side, r.value)
    ensures r.None? <==> forall c :: c in catalog ==> !Resolves(ParseQuery(title), side, c)
  {
    var q := ParseQuery(title);
    Find(catalog, c => Resolves(q, side, c))
  }

  /**
   * A found card is the first catalog entry whose cleaned title equals the
   * cleaned query, on the requested side, in the requested set, and with the
   * Episode I icon when the query asked for it.
   */
  lemma FindCardSpec(catalog: seq<Card>, title: string, side: Option<Side>)
    ensures var q := ParseQuery(title);
      match FindCard(catalog, title, side)
      case Some(c) =>
        && (exists i :: 0 <= i < |catalog| && catalog[i] == c
              && forall j :: 0 <= j < i ==> !Resolves(q, side, catalog[j]))
        && CleanCardTitle(Some(q.title)) == CleanCardTitle(Some(c.front.title))
        && (side.Some? ==> c.side == side.value)
        && (q.cardSet.Some? ==> c.cardSet == q.cardSet.value)
        && (q.ep1 ==> "Episode I" in c.front.icons)
      case None => forall i :: 0 <= i < |catalog| ==> !Resolves(q, side, catalog[i])
  {
    var q := ParseQuery(title);
    var k := FindIndex(catalog, c => Resolves(q, side, c));
  }

  /** `findCardInDecklist(cardTitle, decklist)`: the deck's own copy of the catalog card. */
  function FindCardInDecklist(catalog: seq<Card>, title: string, side: Option<Side>, deck: seq<Card>): (r: Option<Card>)
    ensures r.Some? <==>
      && FindCard(catalog, title, side).Some?
      && (exists i :: 0 <= i < |deck| && deck[i].gempId == FindCard(catalog, title, side).value.gempId)
    ensures r.Some? ==> r.value.gempId == FindCard(catalog, title, side).value.gempId
    ensures r.Some? ==> exists i ::
      && 0 <= i < |deck| && deck[i] == r.value
      && forall j :: 0 <= j < i ==> deck[j].gempId != r.value.gempId
  {
    match FindCard(catalog, title, side)
    case None => None
    case Some(card) => Find(deck, (dc: Card) => dc.gempId == card.gempId)
  }

  // ----- cardTitleFromLine ---------------------------------------------------------------

  /** The length of a match of `/\d{1,2}x\s/` at `i`. */
  function QtyMarkAt(s: string, i: nat): (r: Option<nat>)
    ensures r.Some? ==> (r.value == 3 || r.value == 4) && i + r.value <= |s|
  {
    if i + 4 <= |s| && IsDigit(s[i]) && IsDigit(s[i + 1]) && s[i + 2] == 'x' && IsSpace(s[i + 3]) then Some(4)
    else if i + 3 <= |s| && IsDigit(s[i]) && s[i + 1] == 'x' && IsSpace(s[i + 2]) then Some(3)
    else None
  }

  /** The leftmost match of `/\d{1,2}x\s/` at or after `p`, as (start, end). */
  function NextQtyMark(s: string, p: nat): (r: Option<(nat, nat)>)
    requires p <= |s|
    ensures r.Some? ==> p <= r.value.0 < r.value.1 <= |s| && QtyMarkAt(s, r.value.0) == Some(r.value.1 - r.value.0)
    ensures r.Some? ==> forall q :: p <= q < r.value.0 ==> QtyMarkAt(s, q).None?
    ensures r.None? ==> forall q :: p <= q <= |s| ==> QtyMarkAt(s, q).None?
    decreases |s| - p
  {
    match QtyMarkAt(s, p)
    case Some(n) => Some((p, p + n))
    case None => if p == |s| then None else NextQtyMark(s, p + 1)
  }

  /**
   * `cardTitleFromLine(line)`: the text between the first and the second
   * quantity mark (`line.split(/\d{1,2}x\s/)[1]`), cleaned; a line without
   * a mark is returned as it is.
   */
  function CardTitleFromLine(line: string): Option<string>
  {
    match NextQtyMark(line, 0)
    case None => Some(line)
    case Some((_, e)) =>
      var segment := match NextQtyMark(line, e)
        case None => line[e..]
        case Some((q, _)) => line[e..q];
      CleanCardTitle(Some(segment))
  }

  /** A line "Nx Title" with one quantity mark yields the cleaned title; a line without one is kept. */
  lemma CardTitleFromLineSpec(line: string, n: nat, title: string)
    ensures (forall q :: 0 <= q <= |line| ==> QtyMarkAt(line, q).None?) ==> CardTitleFromLine(line) == Some(line)
    ensures 1 <= n <= 99 && (forall q :: 0 <= q <= |title| ==> QtyMarkAt(title, q).None?) && (title == [] || !IsDigit(title[0])) ==>
      var prefix := if n < 10 then [(48 + n) as char] else [(48 + n / 10) as char, (48 + n % 10) as char];
      CardTitleFromLine(prefix + "x " + title) == CleanCardTitle(Some(title))
  {
    if 1 <= n <= 99 && (forall q :: 0 <= q <= |title| ==> QtyMarkAt(title, q).None?) && (title == [] || !IsDigit(title[0])) {
      var prefix := if n < 10 then [(48 + n) as char] else [(48 + n / 10) as char, (48 + n % 10) as char];
      var line := prefix + "x " + title;
      var e := |prefix| + 2;
      assert QtyMarkAt(line, 0) == Some(e);
      assert line[e..] == title;
      forall q | e <= q <= |line| ensures QtyMarkAt(line, q).None? {
        assert QtyMarkAt(title, q - e).None?;
        assert forall k :: e <= k < |line| ==> line[k] == title[k - e];
      }
    }
  }

  // ----- the lines of a decklist -------------------------------------------------------------

  /** `txt.split(/\r?\n/)`. */
  function SplitLines(s: string): (r: seq<string>)
    ensures |r| >= 1
    ensures forall k :: 0 <= k < |r| ==> '\n' !in r[k]
    decreases |s|
  {
    var parts := Split(s, '\n');
    if |parts| == 1 then parts
    else
      var head := parts[0];
      var line := if head != [] && head[|head| - 1] == '\r' then head[..|head| - 1] else head;
      assert '\n' !in line by { SliceChars(head, 0, |line|, '\n'); }
      assert |head| < |s| by { assert Split(s, '\n') == [s[..IndexOf(s, "\n")]] + Split(s[IndexOf(s, "\n") + 1..], '\n'); }
      [line] + SplitLines(s[|head| + 1..])
  }

  /** `xs.indexOf(x, from)`, with `None` for -1. */
  function IndexFrom(xs: seq<string>, x: string, from: nat): (r: Option<nat>)
    ensures r.Some? ==> from <= r.value < |xs| && xs[r.value] == x
    ensures r.Some? ==> forall j :: from <= j < r.value ==> xs[j] != x
    ensures r.None? ==> forall j :: from <= j < |xs| ==> xs[j] != x
    decreases |xs| - from
  {
    if from >= |xs| then None
    else if xs[from] == x then Some(from)
    else IndexFrom(xs, x, from + 1)
  }

  /**
   * The lines of the STARTING section: from the line after the first
   * "STARTING" up to the next empty line. Without an empty line the slice
   * ends at -1, which drops the last line.
   */
  function StartingSectionLines(lines: seq<string>): (r: seq<string>)
    ensures forall k :: 0 <= k < |r| ==> r[k] != ""
  {
    match IndexFrom(lines, "STARTING", 0)
    case None => []
    case Some(h) =>
      var stop := match IndexFrom(lines, "", h) case Some(e) => e case None => |lines| - 1;
      if h + 1 <= stop then lines[h + 1..stop] else []
  }

  lemma StartingSectionLinesSpec(lines: seq<string>, h: nat)
    requires h < |lines| && lines[h] == "STARTING" && forall j :: 0 <= j < h ==> lines[j] != "STARTING"
    ensures (exists e :: h < e < |lines| && lines[e] == "" && forall j :: h < j < e ==> lines[j] != "")
      ==> exists e :: h < e < |lines| && StartingSectionLines(lines) == lines[h + 1..e] && lines[e] == ""
    ensures (forall j :: h < j < |lines| ==> lines[j] != "") ==> StartingSectionLines(lines) == (if h + 1 <= |lines| - 1 then lines[h + 1..|lines| - 1] else [])
  {
    assert IndexFrom(lines, "STARTING", 0) == Some(h);
  }

  /**
   * `determineStartingSectionCards`: the catalog cards named in the STARTING
   * section, any side. A line "Nx " with nothing after the mark cleans to
   * `null`, and `findCard(null)` throws.
   */
  function StartingSectionCards(lines: seq<string>, catalog: seq<Card>): (r: Result<seq<Card>>)
    ensures r.Success? ==> forall k :: 0 <= k < |r.value| ==> r.value[k] in catalog
    ensures r.Failure? <==> exists k :: 0 <= k < |StartingSectionLines(lines)| && CardTitleFromLine(StartingSectionLines(lines)[k]).None?
  {
    FindAll(Map(StartingSectionLines(lines), CardTitleFromLine), catalog)
  }

  /** `titles.map(t => findCard(t)).filter(c => c)`, throwing on a `null` title. */
  function FindAll(titles: seq<Option<string>>, catalog: seq<Card>): (r: Result<seq<Card>>)
    ensures r.Success? ==> forall k :: 0 <= k < |r.value| ==> r.value[k] in catalog
    ensures r.Failure? <==> exists k :: 0 <= k < |titles| && titles[k].None?
  {
    if titles == [] then Success([])
    else if titles[0].None? then Failure
    else match FindAll(titles[1..], catalog)
      case Failure => assert titles[1..][0] == titles[1]; (assert exists k :: 0 <= k < |titles| && titles[k].None? by {
          var k :| 0 <= k < |titles[1..]| && titles[1..][k].None?; assert titles[k + 1].None?; }
        Failure)
      case Success(rest) =>
        assert forall k :: 1 <= k < |titles| ==> titles[k] == titles[1..][k - 1];
        match FindCard(catalog, titles[0].value, None)
        case None => Success(rest)
        case Some(c) => Success([c] + rest)
  }
}
