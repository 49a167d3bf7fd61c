/**
 * generateDecklistGemp.js: each JSON decklist becomes a Gemp deck file, an
 * XML document with one `<card>` element per copy of a card and the side's
 * cards that sit outside the deck, saved under a name of at most 40
 * letters built from the tournament, round, archetype and player.
 */
module Gemp {
  import opened Str
  import opened Lists
  import opened Cards
  import Resolver
  import DecklistJson

  // ----- shortRoundName (lines 115-126) ---------------------------------------------------

  /** The replace chain of `shortRoundName`. */
  function ShortRoundWords(s: string): (r: string)
    ensures |r| <= |s|
  {
    var s1 := ReplaceFirst(s, "Day ", "D");
    var s2 := ReplaceFirst(s1, "Round ", "R");
    var s3 := ReplaceFirst(s2, "Semifinals", "SF");
    var s4 := ReplaceFirst(s3, "Semi-Finals", "SF");
    var s5 := ReplaceFirst(s4, "Quarterfinals", "QF");
    var s6 := ReplaceFirst(s5, "Finals", "F");
    var s7 := ReplaceFirst(s6, "Top ", "T");
    ReplaceFirstShorter(s, "Day ", "D");
    ReplaceFirstShorter(s1, "Round ", "R");
    ReplaceFirstShorter(s2, "Semifinals", "SF");
    ReplaceFirstShorter(s3, "Semi-Finals", "SF");
    ReplaceFirstShorter(s4, "Quarterfinals", "QF");
    ReplaceFirstShorter(s5, "Finals", "F");
    ReplaceFirstShorter(s6, "Top ", "T");
    ReplaceFirstShorter(s7, "Sweet ", "S");
    ReplaceFirst(s7, "Sweet ", "S")
  }

  /** A replacement no longer than its pattern cannot lengthen the string. */
  lemma ReplaceFirstShorter(s: string, p: string, r: string)
    requires |r| <= |p|
    ensures |ReplaceFirst(s, p, r)| <= |s|
  {
  }

  /** `shortRoundName(round)`: `null` for a missing round, otherwise the abbreviated round. */
  function ShortRoundName(round: Option<string>): (r: Option<string>)
    ensures r.Some? <==> Truthy(round)
    ensures r.Some? ==> |r.value| <= |round.value|
  {
    if Truthy(round) then Some(ShortRoundWords(round.value)) else None
  }

  /** `Day 1` is `D1`. */
  lemma ShortRoundDay(s: string)
    requires Spelled(s, "Day 1")
    ensures ShortRoundName(Some(s)) == Some("D1")
  {
    assert s[..4] == "Day ";
    PresentFirst(s, "Day ", "D");
    var t := "D" + s[4..];
    assert Spelled(t, "D1");
    AbsentRest(t);
    SpelledSame(t, "D1");
  }

  /** `Top 8` is `T8`. */
  lemma ShortRoundTop(s: string)
    requires Spelled(s, "Top 8")
    ensures ShortRoundName(Some(s)) == Some("T8")
  {
    AbsentFirst(s, "Day ", "D");
    AbsentFirst(s, "Round ", "R");
    AbsentFirst(s, "Semifinals", "SF");
    AbsentFirst(s, "Semi-Finals", "SF");
    AbsentFirst(s, "Quarterfinals", "QF");
    AbsentFirst(s, "Finals", "F");
    assert s[..4] == "Top ";
    PresentFirst(s, "Top ", "T");
    var t := "T" + s[4..];
    assert Spelled(t, "T8");
    AbsentFirst(t, "Sweet ", "S");
    SpelledSame(t, "T8");
  }

  /** `Semi-Finals` is `SF`: the rule for `Finals` comes after and finds nothing left. */
  lemma ShortRoundSemiFinals(s: string)
    requires Spelled(s, "Semi-Finals")
    ensures ShortRoundName(Some(s)) == Some("SF")
  {
    AbsentFirst(s, "Day ", "D");
    AbsentFirst(s, "Round ", "R");
    AbsentCharFirst(s, "Semifinals", "SF", 'f');
    SpelledSame(s, "Semi-Finals");
    PresentFirst(s, "Semi-Finals", "SF");
    var t := "SF" + s[11..];
    assert Spelled(t, "SF");
    AbsentFirst(t, "Quarterfinals", "QF");
    AbsentCharFirst(t, "Finals", "F", 'i');
    AbsentFirst(t, "Top ", "T");
    AbsentCharFirst(t, "Sweet ", "S", 'w');
    SpelledSame(t, "SF");
  }

  /** The rules after `Day ` leave `s` alone when it holds no `R`, `S`, `Q`, `F` or `T`. */
  lemma AbsentRest(s: string)
    requires 'R' !in s && 'S' !in s && 'Q' !in s && 'F' !in s && 'T' !in s
    ensures ReplaceFirst(ReplaceFirst(ReplaceFirst(ReplaceFirst(ReplaceFirst(ReplaceFirst(ReplaceFirst(s,
      "Round ", "R"), "Semifinals", "SF"), "Semi-Finals", "SF"), "Quarterfinals", "QF"), "Finals", "F"), "Top ", "T"),
      "Sweet ", "S") == s
  {
    AbsentFirst(s, "Round ", "R");
    AbsentFirst(s, "Semifinals", "SF");
    AbsentFirst(s, "Semi-Finals", "SF");
    AbsentFirst(s, "Quarterfinals", "QF");
    AbsentFirst(s, "Finals", "F");
    AbsentFirst(s, "Top ", "T");
    AbsentFirst(s, "Sweet ", "S");
  }

  // ----- cleanPlayerName (lines 128-132) --------------------------------------------------

  /** `.replace(/.* \(/, "")`: everything up to the last ` (` of the first line that has one. */
  function CutBeforeParen(s: string): string
  {
    ReplaceDotStar(s, [""], [" ("], "", false)
  }

  // `.replace(/\) .*/, "")`: the first `) ` and the rest of its line.
  function CutAfterParen(s: string): string
  {
    ReplaceDotStar(s, [") "], [""], "", false)
  }

  /** The Gemp `cleanPlayerName`: `A.J.` becomes `AJ`, and a parenthesised nickname replaces the name. */
  function GempPlayerName(name: string): string
  {
    CutAfterParen(CutBeforeParen(ReplaceFirst(name, "A.J.", "AJ")))
  }

  /** No line terminator in `s`. */
  predicate SingleLine(s: string)
  {
    forall k :: 0 <= k < |s| ==> !IsLineTerminator(s[k])
  }

  /** Greedy `.*B` settles on the last place `j` where `B` fits. */
  lemma {:induction false} LastFitIsLast(s: string, bs: seq<string>, lo: nat, k: nat, hi: nat, j: nat, e: nat)
    requires lo <= j <= k <= hi <= |s|
    requires FirstAltAt(s, bs, j, hi, false) == Some(e)
    requires forall q :: j < q <= k ==> FirstAltAt(s, bs, q, hi, false).None?
    ensures LastFit(s, bs, lo, k, hi, false) == Some(e)
    decreases k
  {
    if k == j {
      assert LastFit(s, bs, lo, k, hi, false) == FirstAltAt(s, bs, j, hi, false);
    } else {
      assert FirstAltAt(s, bs, k, hi, false).None?;
      LastFitIsLast(s, bs, lo, k - 1, hi, j, e);
      assert LastFit(s, bs, lo, k, hi, false) == LastFit(s, bs, lo, k - 1, hi, false);
    }
  }

  /** On a single line, `/.* \(/` runs from the start through the last ` (`. */
  lemma CutBeforeLast(a: string, rest: string)
    requires SingleLine(a + " (" + rest)
    requires Resolver.NoOccurrence(rest, " (") && (rest == [] || rest[0] != '(')
    ensures CutBeforeParen(a + " (" + rest) == rest
  {
    var s := a + " (" + rest;
    var n := |a|;
    assert SegEnd(s, 0) == |s|;
    assert OccursAt(s, " (", n) by { assert s[n..n + 2] == " ("; }
    assert FirstAltAt(s, [" ("], n, |s|, false) == Some(n + 2);
    forall q | n < q <= |s| ensures FirstAltAt(s, [" ("], q, |s|, false).None? {
      NoParenAfter(a, rest, q);
    }
    LastFitIsLast(s, [" ("], 0, |s|, |s|, n, n + 2);
    assert OccursAtCase(s, "", 0, false);
    assert DotStarAt(s, [""], [" ("], 0, false) == Some(n + 2);
    assert s[n + 2..] == rest;
  }

  /** No ` (` begins after the one that follows `a`. */
  lemma NoParenAfter(a: string, rest: string, q: nat)
    requires Resolver.NoOccurrence(rest, " (") && (rest == [] || rest[0] != '(')
    requires |a| < q <= |a + " (" + rest|
    ensures FirstAltAt(a + " (" + rest, [" ("], q, |a + " (" + rest|, false).None?
  {
    var s := a + " (" + rest;
    var n := |a|;
    if q + 2 <= |s| {
      if q == n + 1 {
        assert s[q] == '(';
        assert s[q..q + 2][0] == s[q];
      } else {
        assert s[q..q + 2] == rest[q - n - 2..q - n];
        assert !OccursAt(rest, " (", q - n - 2);
      }
    }
  }

  // `/\) .*/` cuts from the first `) ` to the end of the line.
  lemma CutAfterFirst(b: string, c: string)
    requires SingleLine(b + ") " + c) && Resolver.NoOccurrence(b, ") ")
    ensures CutAfterParen(b + ") " + c) == b
  {
    var t := b + ") " + c;
    var n := |b|;
    forall q | 0 <= q < n ensures DotStarAt(t, [") "], [""], q, false).None? {
      NoCutBefore(b, c, q);
    }
    CutAtParen(b, c);
    DotStarFromLeftmost(t, [") "], [""], 0, false);
    assert t[..n] == b;
  }

  /** The `) ` after `b` starts a match that runs to the end of the line. */
  lemma CutAtParen(b: string, c: string)
    requires SingleLine(b + ") " + c)
    ensures DotStarAt(b + ") " + c, [") "], [""], |b|, false) == Some(|b + ") " + c|)
  {
    var t := b + ") " + c;
    DotStarToLineEnd(t, ") ", |b|);
    assert t[|b|..|b| + 2] == ") ";
    assert SegEnd(t, |b| + 2) == |t|;
  }

  /** No `) ` begins inside `b`, nor across its end. */
  lemma NoCutBefore(b: string, c: string, q: nat)
    requires SingleLine(b + ") " + c) && Resolver.NoOccurrence(b, ") ") && q < |b|
    ensures DotStarAt(b + ") " + c, [") "], [""], q, false).None?
  {
    var t := b + ") " + c;
    DotStarToLineEnd(t, ") ", q);
    if q + 2 <= |b| {
      assert t[q..q + 2] == b[q..q + 2];
      assert !OccursAt(b, ") ", q);
    } else {
      assert t[q + 1] == ')';
      assert t[q..q + 2][1] == t[q + 1];
    }
  }

  /** Two strings free of a two-letter pattern, joined where it cannot straddle, stay free of it. */
  lemma NoPairConcat(x: string, y: string, p: string)
    requires |p| == 2 && Resolver.NoOccurrence(x, p) && Resolver.NoOccurrence(y, p)
    requires x == [] || y == [] || x[|x| - 1] != p[0] || y[0] != p[1]
    ensures Resolver.NoOccurrence(x + y, p)
  {
    forall j | 0 <= j <= |x + y| ensures !OccursAt(x + y, p, j) {
      if j + 2 <= |x| {
        assert (x + y)[j..j + 2] == x[j..j + 2];
        assert !OccursAt(x, p, j);
      } else if j >= |x| && j + 2 <= |x + y| {
        assert (x + y)[j..j + 2] == y[j - |x|..j - |x| + 2];
        assert !OccursAt(y, p, j - |x|);
      } else if j + 2 <= |x + y| {
        assert (x + y)[j..j + 2][0] == x[|x| - 1];
        assert (x + y)[j..j + 2][1] == y[0];
      }
    }
  }

  /** A string without line terminators keeps none in its pieces. */
  lemma SingleLineSlice(s: string, i: nat, j: nat)
    requires SingleLine(s) && i <= j <= |s|
    ensures SingleLine(s[i..j])
  {
    assert forall k :: 0 <= k < j - i ==> s[i..j][k] == s[i + k];
  }

  /**
   * A name with a parenthesised nickname, as in `Lawrence (Rich) Craft`,
   * is replaced by the nickname.
   */
  lemma GempPlayerNameNickname(a: string, b: string, c: string)
    requires SingleLine(a + " (" + b + ") " + c) && !Contains(a + " (" + b + ") " + c, "A.J.")
    requires Resolver.NoOccurrence(b, " (") && Resolver.NoOccurrence(c, " (") && (c == [] || c[0] != '(')
    requires Resolver.NoOccurrence(b, ") ") && (b == [] || b[0] != '(')
    ensures GempPlayerName(a + " (" + b + ") " + c) == b
  {
    var s := a + " (" + b + ") " + c;
    var rest := b + ") " + c;
    assert s == a + " (" + rest;
    assert ReplaceFirst(s, "A.J.", "AJ") == s;
    assert Resolver.NoOccurrence(") ", " (") by {
      forall j | 0 <= j <= 2 ensures !OccursAt(") ", " (", j) {
        if j == 0 { assert ") "[0..2][0] == ')'; }
      }
    }
    NoPairConcat(b, ") ", " (");
    NoPairConcat(b + ") ", c, " (");
    assert b + ") " + c == rest;
    assert rest[0] != '(' by {
      if b == [] { assert rest[0] == ')'; } else { assert rest[0] == b[0]; }
    }
    CutBeforeLast(a, rest);
    SingleLineSlice(s, |a| + 2, |s|);
    assert s[|a| + 2..] == rest;
    CutAfterFirst(b, c);
  }

  /** A pattern starting with a character that `s` lacks occurs nowhere in `s`. */
  lemma NoOccurrenceHead(s: string, p: string)
    requires p != [] && p[0] !in s
    ensures Resolver.NoOccurrence(s, p)
  {
    forall j | 0 <= j <= |s| ensures !OccursAt(s, p, j) {
      if j + |p| <= |s| {
        assert s[j..j + |p|][0] == s[j];
      }
    }
  }

  /** `Lawrence (Rich) Craft` is saved as `Rich`. */
  lemma GempPlayerNameRich(a: string, b: string, c: string)
    requires Spelled(a, "Lawrence") && Spelled(b, "Rich") && Spelled(c, "Craft")
    ensures GempPlayerName(a + " (" + b + ") " + c) == b
  {
    var s := a + " (" + b + ") " + c;
    assert SingleLine(s) by {
      forall k | 0 <= k < |s| ensures !IsLineTerminator(s[k]) {
        if k < |a| { assert s[k] == a[k]; }
        else if k < |a| + 2 { }
        else if k < |a| + 2 + |b| { assert s[k] == b[k - |a| - 2]; }
        else if k < |a| + 4 + |b| { }
        else { assert s[k] == c[k - |a| - 4 - |b|]; }
      }
    }
    assert 'A' !in s by {
      forall k | 0 <= k < |s| ensures s[k] != 'A' {
        if k < |a| { assert s[k] == a[k]; }
        else if k < |a| + 2 { }
        else if k < |a| + 2 + |b| { assert s[k] == b[k - |a| - 2]; }
        else if k < |a| + 4 + |b| { }
        else { assert s[k] == c[k - |a| - 4 - |b|]; }
      }
    }
    AbsentIndexOf(s, "A.J.");
    assert ' ' !in b && ')' !in b && ' ' !in c;
    NoOccurrenceHead(b, " (");
    NoOccurrenceHead(c, " (");
    NoOccurrenceHead(b, ") ");
    GempPlayerNameNickname(a, b, c);
  }

  // ----- playerNickname (lines 134-135) ---------------------------------------------------

  const MhtName := "Matthew Harrison-Trainor"

  /**
   * As written: the second `.replace("")` has the empty pattern and no
   * replacement, so it writes `undefined` in front of the name.
   */
  function PlayerNicknameAsWritten(name: string): (nick: string)
  {
    ReplaceFirst(ReplaceFirst(name, MhtName, "MHT"), "", "undefined")
  }

  /** As written, every nickname begins with `undefined`. */
  lemma NicknameAsWrittenUndefined(name: string)
    ensures PlayerNicknameAsWritten(name) == "undefined" + ReplaceFirst(name, MhtName, "MHT")
  {
    PresentFirst(ReplaceFirst(name, MhtName, "MHT"), "", "undefined");
  }

  /** The nickname the line means: `MHT` for Matthew Harrison-Trainor, otherwise the name. */
  function PlayerNickname(name: string): string
  {
    ReplaceFirst(name, MhtName, "MHT")
  }

  // ----- the player short name (lines 74-97) -----------------------------------------------

  const MaxFilenameLength := 40

  /** An entry of the `find` list: its text, the `length` the filter reads, and whether it is truthy. */
  datatype Candidate = Candidate(text: string, size: nat, truthy: bool)

  /** `.find((el) => el && el.length <= limit)`. */
  function FirstFitting(cs: seq<Candidate>, limit: int): (r: Option<string>)
    ensures r.None? ==> forall k :: 0 <= k < |cs| ==> !(cs[k].truthy && cs[k].size <= limit)
    ensures r.Some? ==> exists k :: 0 <= k < |cs| && cs[k].truthy && cs[k].size <= limit && r.value == cs[k].text &&
                                  forall j :: 0 <= j < k ==> !(cs[j].truthy && cs[j].size <= limit)
  {
    match FindIndex(cs, (c: Candidate) => c.truthy && c.size <= limit)
    case None => None
    case Some(k) => Some(cs[k].text)
  }

  /** `${firstName[0]}`: the first letter, or `undefined` for an empty first word. */
  function Initial(first: string): (r: string)
    ensures first != [] ==> |r| == 1 && r[0] == first[0]
  {
    if first == [] then "undefined" else [first[0]]
  }

  /** `name.split(" ")[0]`. */
  function FirstWord(name: string): string
  {
    Split(name, ' ')[0]
  }

  /** The text of `name.split(" ").slice(-1)`. */
  function LastWord(name: string): string
  {
    var ws := Split(name, ' ');
    ws[|ws| - 1]
  }

  /** `s.slice(0, k)` on a string: a negative `k` counts back from the end. */
  function SliceTo(s: string, k: int): (r: string)
    ensures |r| <= |s| && (k >= 0 ==> |r| <= k) && r == s[..|r|]
  {
    if k >= 0 then (if k <= |s| then s[..k] else s)
    else if |s| + k > 0 then s[..|s| + k] else []
  }

  /** `[x].slice(0, k)` written into a template: `x` when `k` is at least 1, otherwise nothing. */
  function ArraySliceTo(x: string, k: int): string
  {
    if k >= 1 then x else ""
  }

  /** The four entries of the `find` list, the last one measured as `lastSize` and truthy as `lastTruthy`. */
  function Candidates(nick: string, first: string, last: string, lastSize: nat, lastTruthy: bool): seq<Candidate>
  {
    [Candidate(nick, |nick|, nick != []),
     Candidate(first + " " + last, |first + " " + last|, true),
     Candidate(first + last, |first + last|, true),
     Candidate(last, lastSize, lastTruthy)]
  }

  /**
   * Lines 85-97 given the pieces they compute: the full name when it fits,
   * else the first candidate within the limit, else the initial and the
   * cut last word `cut`, trimmed.
   */
  function Shorten(name: string, letters: int, nick: string, first: string, last: string, lastSize: nat,
                   lastTruthy: bool, cut: string): string
  {
    if letters + |name| <= MaxFilenameLength then name
    else
      match FirstFitting(Candidates(nick, first, last, lastSize, lastTruthy), MaxFilenameLength - letters - 6)
      case Some(t) => t
      case None => Trim(first + " " + cut)
  }

  /**
   * Lines 85-97 as written: the nickname carries `undefined`, and the last
   * candidate is the one-element array `lastName`, whose `length` is 1
   * and which is truthy even when it holds an empty word.
   */
  function ShortPlayerNameAsWritten(name: string, letters: int): string
  {
    var last := LastWord(name);
    Shorten(name, letters, PlayerNicknameAsWritten(name), Initial(FirstWord(name)), last, 1, true,
            ArraySliceTo(last, MaxFilenameLength - letters - 9))
  }

  /** Lines 85-97 as meant: the nickname without `undefined`, and `lastName` the last word itself. */
  function ShortPlayerName(name: string, letters: int): (r: string)
    ensures letters + |name| <= MaxFilenameLength ==> r == name
  {
    var last := LastWord(name);
    Shorten(name, letters, PlayerNickname(name), Initial(FirstWord(name)), last, |last|, last != [],
            SliceTo(last, MaxFilenameLength - letters - 9))
  }

  /** The first word of a name that does not begin with a space is not empty. */
  lemma SplitHead(name: string, sep: char)
    requires name != [] && name[0] != sep
    ensures Split(name, sep)[0] != []
  {
    if sep in name {
      CharContains(name, sep);
      IndexOfSpec(name, [sep]);
      assert name[0..1] == [name[0]];
    }
  }

  /**
   * With line 89 as meant, the short name keeps the file name within its
   * budget: the letters before the name plus the name are at most 40,
   * whenever at least three letters are left for the name.
   */
  lemma ShortPlayerNameFits(name: string, letters: int)
    requires MaxFilenameLength - letters - 6 >= 3
    requires name != [] && name[0] != ' '
    ensures letters + |ShortPlayerName(name, letters)| <= MaxFilenameLength
  {
    if letters + |name| > MaxFilenameLength {
      SplitHead(name, ' ');
      var first := Initial(FirstWord(name));
      var last := LastWord(name);
      var cs := Candidates(PlayerNickname(name), first, last, |last|, last != []);
      assert forall k :: 0 <= k < |cs| ==> cs[k].size == |cs[k].text|;
      var cut := SliceTo(last, MaxFilenameLength - letters - 9);
      assert |first + " " + cut| <= MaxFilenameLength - letters - 7;
    }
  }

  /**
   * As written, a long last word overflows the budget: it is measured as a
   * one-element array, so it passes the filter whatever its length.
   */
  lemma ShortPlayerNameAsWrittenOverflows(f: string, l: string, letters: int)
    requires f != [] && l != [] && ' ' !in f && ' ' !in l
    requires !Contains(f + " " + l, MhtName)
    requires MaxFilenameLength - letters - 6 >= 1 && letters + |l| > MaxFilenameLength
    ensures ShortPlayerNameAsWritten(f + " " + l, letters) == l
    ensures letters + |ShortPlayerNameAsWritten(f + " " + l, letters)| > MaxFilenameLength
  {
    var name := f + " " + l;
    SplitFirst(f, ' ', l);
    assert Split(l, ' ') == [l];
    assert FirstWord(name) == f && LastWord(name) == l;
    NicknameAsWrittenUndefined(name);
    FitsOnlyLast(PlayerNicknameAsWritten(name), Initial(f), l, MaxFilenameLength - letters - 6);
  }

  /** When only the last candidate fits, `find` picks it. */
  lemma FitsOnlyLast(nick: string, first: string, last: string, limit: int)
    requires |nick| > limit && |first + last| > limit && 1 <= limit
    ensures FirstFitting(Candidates(nick, first, last, 1, true), limit) == Some(last)
  {
    var cs := Candidates(nick, first, last, 1, true);
    assert cs[3].truthy && cs[3].size <= limit;
    assert forall j :: 0 <= j < 3 ==> !(cs[j].truthy && cs[j].size <= limit);
  }

  /** When no candidate fits, the fallback is taken. */
  lemma FitsNone(nick: string, first: string, last: string, limit: int)
    requires |nick| > limit && |first + last| > limit && |last| > limit
    ensures FirstFitting(Candidates(nick, first, last, |last|, last != []), limit) == None
  {
    var cs := Candidates(nick, first, last, |last|, last != []);
    assert forall j :: 0 <= j < 4 ==> !(cs[j].truthy && cs[j].size <= limit);
  }

  /** When the nickname fits, `find` picks it. */
  lemma FitsNick(nick: string, first: string, last: string, lastSize: nat, lastTruthy: bool, limit: int)
    requires nick != [] && |nick| <= limit
    ensures FirstFitting(Candidates(nick, first, last, lastSize, lastTruthy), limit) == Some(nick)
  {
  }

  /** A two-word name none of whose candidates fits is cut to its initial and the start of its last word. */
  lemma ShortPlayerNameTwoWordsCut(f: string, l: string, letters: int)
    requires f != [] && ' ' !in f && ' ' !in l && !Contains(f + " " + l, MhtName)
    requires letters + |f| + 1 + |l| > MaxFilenameLength && |l| > MaxFilenameLength - letters - 6
    ensures ShortPlayerName(f + " " + l, letters) == Trim([f[0]] + " " + SliceTo(l, MaxFilenameLength - letters - 9))
  {
    var name := f + " " + l;
    assert PlayerNickname(name) == name;
    SplitFirst(f, ' ', l);
    assert Split(l, ' ') == [l];
    assert FirstWord(name) == f && LastWord(name) == l;
    FitsNone(PlayerNickname(name), Initial(f), l, MaxFilenameLength - letters - 6);
  }

  lemma BartholomewVanderhoeven(f: string, l: string)
    requires Spelled(f, "Bartholomew") && Spelled(l, "Vanderhoeven")
    ensures |f| == 11 && |l| == 12 && f[0] == 'B' && l[0] == 'V' && ' ' !in f && ' ' !in l && !Contains(f + " " + l, MhtName)
  {
    var name := f + " " + l;
    assert 'M' !in name by {
      forall k | 0 <= k < |name| ensures name[k] != 'M' {
        if k < |f| { assert name[k] == f[k]; }
        else if k > |f| { assert name[k] == l[k - |f| - 1]; }
      }
    }
    AbsentIndexOf(name, MhtName);
  }

  lemma TrimInitials(a: char, b: char)
    requires !IsSpace(a) && !IsSpace(b)
    ensures Trim([a] + " " + [b]) == [a, ' ', b]
  {
    assert [a] + " " + [b] == [a, ' ', b];
    TrimNoSpaceEnds([a, ' ', b]);
  }

  /** At 30 letters, a first and last word of 11 and 12 letters are cut to their initials. */
  lemma ShortPlayerNameInitials(f: string, l: string)
    requires |f| == 11 && |l| == 12 && ' ' !in f && ' ' !in l && !Contains(f + " " + l, MhtName)
    requires !IsSpace(f[0]) && !IsSpace(l[0])
    ensures ShortPlayerName(f + " " + l, 30) == [f[0], ' ', l[0]]
  {
    ShortPlayerNameTwoWordsCut(f, l, 30);
    assert SliceTo(l, 1) == [l[0]];
    TrimInitials(f[0], l[0]);
  }

  /** With the corrected lines, the same name is cut to fit: `B V` for `Bartholomew Vanderhoeven` at 30 letters. */
  lemma ShortPlayerNameCut(f: string, l: string)
    requires Spelled(f, "Bartholomew") && Spelled(l, "Vanderhoeven")
    ensures ShortPlayerName(f + " " + l, 30) == [f[0], ' ', l[0]]
  {
    BartholomewVanderhoeven(f, l);
    ShortPlayerNameInitials(f, l);
  }

  /** When the string nickname fits, the short name is the nickname. */
  lemma ShortPlayerNameAsWrittenNick(name: string, letters: int)
    requires letters + |name| > MaxFilenameLength
    requires |PlayerNicknameAsWritten(name)| <= MaxFilenameLength - letters - 6
    ensures ShortPlayerNameAsWritten(name, letters) == PlayerNicknameAsWritten(name)
  {
    NicknameAsWrittenUndefined(name);
    FitsNick(PlayerNicknameAsWritten(name), Initial(FirstWord(name)), LastWord(name), 1, true, MaxFilenameLength - letters - 6);
  }

  /** The same with the nickname as meant. */
  lemma ShortPlayerNameNick(name: string, letters: int)
    requires letters + |name| > MaxFilenameLength
    requires PlayerNickname(name) != [] && |PlayerNickname(name)| <= MaxFilenameLength - letters - 6
    ensures ShortPlayerName(name, letters) == PlayerNickname(name)
  {
    var last := LastWord(name);
    FitsNick(PlayerNickname(name), Initial(FirstWord(name)), last, |last|, last != [], MaxFilenameLength - letters - 6);
  }

  /** Matthew Harrison-Trainor's nickname is `MHT`. */
  lemma MhtNickname(n: string)
    requires Spelled(n, MhtName)
    ensures |n| == 24 && PlayerNickname(n) == "MHT"
  {
    SpelledSame(n, MhtName);
    PresentFirst(n, MhtName, "MHT");
  }

  /** As written, Matthew Harrison-Trainor's short name is `undefinedMHT` when 17 to 22 letters come before it. */
  lemma MhtAsWritten(n: string, letters: int)
    requires Spelled(n, MhtName) && 17 <= letters <= 22
    ensures ShortPlayerNameAsWritten(n, letters) == "undefinedMHT"
  {
    MhtNickname(n);
    NicknameAsWrittenUndefined(n);
    ShortPlayerNameAsWrittenNick(n, letters);
  }

  /** With the nickname as meant, it is `MHT` whenever `MHT` fits. */
  lemma MhtCorrected(n: string, letters: int)
    requires Spelled(n, MhtName) && 17 <= letters <= 31
    ensures ShortPlayerName(n, letters) == "MHT"
  {
    MhtNickname(n);
    ShortPlayerNameNick(n, letters);
  }

  // ----- titleForGemp (lines 137-138) ------------------------------------------------------

  /** `titleForGemp(title)`: marks removed, the back face cut, trimmed; `null` for a falsy title. */
  function TitleForGemp(title: Option<string>): (r: Option<string>)
    ensures r.Some? <==> Truthy(title)
  {
    if Truthy(title) then Some(Trim(Resolver.CutBack(Resolver.StripMarks(title.value)))) else None
  }

  /** A slice of a string free of `p` is free of `p`. */
  lemma NoOccurrenceSlice(s: string, p: string, i: nat, j: nat)
    requires i <= j <= |s| && Resolver.NoOccurrence(s, p)
    ensures Resolver.NoOccurrence(s[i..j], p)
  {
    forall k | 0 <= k <= j - i ensures !OccursAt(s[i..j], p, k) {
      if k + |p| <= j - i {
        assert !OccursAt(s, p, i + k);
        var x := s[i + k..i + k + |p|];
        if x != p {
          var t :| 0 <= t < |p| && x[t] != p[t];
          assert s[i..j][k..k + |p|][t] == x[t];
        }
      }
    }
  }

  /** Trimming a string free of `p` leaves it free of `p`. */
  lemma TrimNoOccurrence(s: string, p: string)
    requires Resolver.NoOccurrence(s, p)
    ensures Resolver.NoOccurrence(Trim(s), p)
  {
    var a := |s| - |TrimStart(s)|;
    assert Trim(s) == s[a..a + |Trim(s)|];
    NoOccurrenceSlice(s, p, a, a + |Trim(s)|);
  }

  /** A Gemp title has no `•`, `<` or `>`, no back face, and no surrounding spaces. */
  lemma TitleForGempChars(title: Option<string>)
    requires Truthy(title)
    ensures var u := TitleForGemp(title).value;
      && '<' !in u && '>' !in u && '•' !in u && Resolver.NoOccurrence(u, " /")
      && (u == [] || (!IsSpace(u[0]) && !IsSpace(u[|u| - 1])))
  {
    var s1 := Resolver.StripMarks(title.value);
    var s2 := Resolver.CutBack(s1);
    ReplaceAllDotStarChars(s1, [" /"], [""], "", false, '<');
    ReplaceAllDotStarChars(s1, [" /"], [""], "", false, '>');
    ReplaceAllDotStarChars(s1, [" /"], [""], "", false, '•');
    TrimChars(s2, '<');
    TrimChars(s2, '>');
    TrimChars(s2, '•');
    Resolver.CutBackNoSlash(s1);
    TrimNoOccurrence(s2, " /");
  }

  /** Applying `titleForGemp` to a non-empty Gemp title changes nothing. */
  lemma TitleForGempIdempotent(title: Option<string>)
    requires Truthy(TitleForGemp(title))
    ensures TitleForGemp(TitleForGemp(title)) == TitleForGemp(title)
  {
    var u := TitleForGemp(title).value;
    TitleForGempChars(title);
    Resolver.StripNoMarks(u);
    Resolver.NoStartAbsent(u, " /", [""]);
    TrimNoSpaceEnds(u);
  }

  // ----- gempClean (line 140) ----------------------------------------------------------------

  /** Every `&` written as `&amp;`, character by character. */
  function EscapeAmp(s: string): string
  {
    if s == [] then [] else (if s[0] == '&' then "&amp;" else [s[0]]) + EscapeAmp(s[1..])
  }

  /** Reading `&amp;` back as `&`. */
  function UnescapeAmp(s: string): string
    decreases |s|
  {
    if s == [] then []
    else if |s| >= 5 && s[..5] == "&amp;" then "&" + UnescapeAmp(s[5..])
    else [s[0]] + UnescapeAmp(s[1..])
  }

  /** `gempClean(title)`. */
  function GempClean(title: string): string
  {
    Trim(ReplaceAll(title, "&", "&amp;"))
  }

  lemma {:induction false} EscapeAmpConcat(a: string, b: string)
    ensures EscapeAmp(a + b) == EscapeAmp(a) + EscapeAmp(b)
    decreases |a|
  {
    if a == [] {
      assert a + b == b;
    } else {
      assert (a + b)[0] == a[0];
      assert (a + b)[1..] == a[1..] + b;
      EscapeAmpConcat(a[1..], b);
    }
  }

  lemma {:induction false} EscapeAmpPlain(s: string)
    requires '&' !in s
    ensures EscapeAmp(s) == s
    decreases |s|
  {
    if s != [] {
      assert forall c :: c in s[1..] ==> c in s;
      EscapeAmpPlain(s[1..]);
    }
  }

  /** The `/&/g` replacement is the per-character escape. */
  lemma {:induction false} ReplaceAllAmp(s: string)
    ensures ReplaceAll(s, "&", "&amp;") == EscapeAmp(s)
    decreases |s|
  {
    var i := IndexOf(s, "&");
    IndexOfSpec(s, "&");
    if i < 0 {
      CharContains(s, '&');
      EscapeAmpPlain(s);
    } else {
      assert s[i..i + 1] == "&";
      assert '&' !in s[..i] by {
        forall k | 0 <= k < i ensures s[k] != '&' {
          assert !OccursAt(s, "&", k);
          assert s[k..k + 1] == [s[k]];
        }
      }
      var rest := s[i + 1..];
      calc {
        ReplaceAll(s, "&", "&amp;");
        == { ReplaceAllAt(s, "&", "&amp;"); }
        s[..i] + "&amp;" + ReplaceAll(rest, "&", "&amp;");
        == { ReplaceAllAmp(rest); }
        s[..i] + "&amp;" + EscapeAmp(rest);
        == { EscapeAmpPlain(s[..i]); EscapeAmpHead(s[i..]); assert s[i..][1..] == rest; }
        EscapeAmp(s[..i]) + EscapeAmp(s[i..]);
        == { EscapeAmpConcat(s[..i], s[i..]); assert s[..i] + s[i..] == s; }
        EscapeAmp(s);
      }
    }
  }

  lemma EscapeAmpHead(t: string)
    requires t != [] && t[0] == '&'
    ensures EscapeAmp(t) == "&amp;" + EscapeAmp(t[1..])
  {
  }

  /** Escaping loses nothing: unescaping gives the text back. */
  lemma {:induction false} UnescapeEscape(s: string)
    ensures UnescapeAmp(EscapeAmp(s)) == s
    decreases |s|
  {
    if s != [] {
      UnescapeEscape(s[1..]);
      var e := EscapeAmp(s);
      if s[0] == '&' {
        assert e[..5] == "&amp;" && e[5..] == EscapeAmp(s[1..]);
      } else {
        assert e[0] == s[0] && e[1..] == EscapeAmp(s[1..]);
      }
    }
  }

  /** Escaping a string without surrounding spaces adds none: `&` becomes `&amp;`, which starts and ends with a mark. */
  lemma EscapeAmpTrimmed(s: string)
    requires s == [] || (!IsSpace(s[0]) && !IsSpace(s[|s| - 1]))
    ensures Trim(EscapeAmp(s)) == EscapeAmp(s)
  {
    if s != [] {
      EscapeAmpEnds(s);
      SameEndsTrimmed(s, EscapeAmp(s));
    }
  }

  lemma SameEndsTrimmed(s: string, e: string)
    requires s != [] && !IsSpace(s[0]) && !IsSpace(s[|s| - 1])
    requires e != [] && e[0] == s[0] && e[|e| - 1] == (if s[|s| - 1] == '&' then ';' else s[|s| - 1])
    ensures Trim(e) == e
  {
    TrimNoSpaceEnds(e);
  }

  /** The escape keeps the first character, and the last unless it is `&`, which ends in `;`. */
  lemma EscapeAmpEnds(s: string)
    requires s != []
    ensures var e := EscapeAmp(s);
      && e != [] && e[0] == s[0]
      && e[|e| - 1] == (if s[|s| - 1] == '&' then ';' else s[|s| - 1])
  {
    assert s == s[..|s| - 1] + [s[|s| - 1]];
    EscapeAmpConcat(s[..|s| - 1], [s[|s| - 1]]);
  }

  /** `gempClean` escapes every `&` and then trims. */
  lemma GempCleanEscapes(title: string)
    ensures GempClean(title) == Trim(EscapeAmp(title))
  {
    ReplaceAllAmp(title);
  }

  /** For a title without surrounding spaces `gempClean` only escapes, and unescaping gives the title back. */
  lemma GempCleanRoundTrip(title: string)
    requires title == [] || (!IsSpace(title[0]) && !IsSpace(title[|title| - 1]))
    ensures GempClean(title) == EscapeAmp(title) && UnescapeAmp(GempClean(title)) == title
  {
    GempCleanEscapes(title);
    UnescapeEscape(title);
    EscapeAmpTrimmed(title);
  }

  // ----- outside-deck cards (lines 22-40) ----------------------------------------------------

  const DarkOutsideTitles: seq<string> := ["Dewback", "Dreadnaught-Class Heavy Cruiser", "Luke Skywalker, The Emperor's Prize"]
  const LightOutsideTitles: seq<string> := ["The Falcon, Junkyard Garbage", "The Mythrol"]

  /** A Defensive Shield, or a card whose Gemp title is one of `titles`. */
  predicate SitsOutside(c: Card, titles: seq<string>)
  {
    c.front.typ == "Defensive Shield" || (var t := TitleForGemp(Some(c.front.title)); t.Some? && t.value in titles)
  }

  /** `outsideDeckCards[decklist.side] || []`. */
  function OutsideDeckCards(side: Option<Side>, darkCards: seq<Card>, lightCards: seq<Card>): seq<Card>
  {
    match side
    case Some(Dark) => Filter(darkCards, (c: Card) => SitsOutside(c, DarkOutsideTitles))
    case Some(Light) => Filter(lightCards, (c: Card) => SitsOutside(c, LightOutsideTitles))
    case None => []
  }

  /**
   * The outside-deck cards come only from the decklist's own side, and are
   * exactly that side's shields and listed titles; with no side there are none.
   */
  lemma OutsideDeckCardsSpec(side: Option<Side>, darkCards: seq<Card>, lightCards: seq<Card>)
    ensures var r := OutsideDeckCards(side, darkCards, lightCards);
      && (side.None? ==> r == [])
      && (side == Some(Dark) ==> forall c :: c in r <==> c in darkCards && SitsOutside(c, DarkOutsideTitles))
      && (side == Some(Light) ==> forall c :: c in r <==> c in lightCards && SitsOutside(c, LightOutsideTitles))
  {
    var r := OutsideDeckCards(side, darkCards, lightCards);
    if side == Some(Dark) {
      forall c | c in darkCards && SitsOutside(c, DarkOutsideTitles) ensures c in r {
        var k :| 0 <= k < |darkCards| && darkCards[k] == c;
      }
    } else if side == Some(Light) {
      forall c | c in lightCards && SitsOutside(c, LightOutsideTitles) ensures c in r {
        var k :| 0 <= k < |lightCards| && lightCards[k] == c;
      }
    }
  }

  // ----- the XML (lines 50-71) ----------------------------------------------------------------

  const XmlDeclaration := "<?xml version=\"1.0\" encoding=\"UTF-8\" standalone=\"no\"?>\n"
  const DeckClose := "</deck>\n"

  /** The comment naming the decklist's page: `.json` turned into `/`. */
  function SourceComment(filename: string): string
  {
    "<!--https://starwarsccg.org/" + ReplaceFirst(filename, ".json", "/") + "-->\n"
  }

  /** The declaration, the source comment and the opening `<deck>`. */
  function XmlHead(filename: string): string
  {
    XmlDeclaration + SourceComment(filename) + "<deck>\n"
  }

  /** One `<card>` element. */
  function CardElement(c: DecklistJson.DeckCard): string
  {
    "\t<card blueprintId=\"" + c.id + "\" title=\"" + GempClean(c.title) + "\"/>\n"
  }

  /** One `<cardOutsideDeck>` element; a falsy title is written `null`. */
  function OutsideElement(c: Card): string
  {
    var t := match TitleForGemp(Some(c.front.title)) case Some(t) => t case None => "null";
    "\t<cardOutsideDeck blueprintId=\"" + c.gempId + "\" title=\"" + t + "\"/>\n"
  }

  /** `n` copies of `c`. */
  function Repeat<T>(c: T, n: nat): (r: seq<T>)
    ensures |r| == n && forall k :: 0 <= k < n ==> r[k] == c
  {
    if n == 0 then [] else Repeat(c, n - 1) + [c]
  }

  /** The units in the order they are written: each entry `count` times, in list order. */
  function Units<T>(xs: seq<T>, count: T -> nat): seq<T>
  {
    if xs == [] then [] else Units(xs[..|xs| - 1], count) + Repeat(xs[|xs| - 1], count(xs[|xs| - 1]))
  }

  /** The counts added up. */
  function Sum<T>(xs: seq<T>, count: T -> nat): nat
  {
    if xs == [] then 0 else Sum(xs[..|xs| - 1], count) + count(xs[|xs| - 1])
  }

  /** As many units as the counts add up to. */
  lemma {:induction false} UnitsCount<T>(xs: seq<T>, count: T -> nat)
    ensures |Units(xs, count)| == Sum(xs, count)
    decreases |xs|
  {
    if xs != [] {
      UnitsCount(xs[..|xs| - 1], count);
    }
  }

  /** Units keep the list order: the units of a concatenation are the concatenated units. */
  lemma {:induction false} UnitsConcat<T>(a: seq<T>, b: seq<T>, count: T -> nat)
    ensures Units(a + b, count) == Units(a, count) + Units(b, count)
    decreases |b|
  {
    if b == [] {
      assert a + b == a;
    } else {
      var b' := b[..|b| - 1];
      assert (a + b)[..|a + b| - 1] == a + b';
      UnitsConcat(a, b', count);
    }
  }

  /** An entry shows up `count` times in a row. */
  lemma UnitsOfOne<T>(x: T, count: T -> nat)
    ensures Units([x], count) == Repeat(x, count(x))
  {
    assert [x][..0] == [];
  }

  /** `decklistCard.quantity`. */
  function Quantity(c: DecklistJson.DeckCard): nat
  {
    c.quantity
  }

  /** The decklist has one `<card>` unit per unit of quantity: as many as its count. */
  lemma {:induction false} CardUnitsCount(cards: seq<DecklistJson.DeckCard>)
    ensures |Units(cards, Quantity)| == DecklistJson.Total(cards)
    decreases |cards|
  {
    UnitsCount(cards, Quantity);
    TotalIsSum(cards);
  }

  lemma {:induction false} TotalIsSum(cards: seq<DecklistJson.DeckCard>)
    ensures Sum(cards, Quantity) == DecklistJson.Total(cards)
    decreases |cards|
  {
    if cards != [] {
      TotalIsSum(cards[..|cards| - 1]);
    }
  }

  /** The elements `el` writes for `xs`, one after another. */
  function Render<T>(xs: seq<T>, el: T -> string): string
  {
    if xs == [] then "" else Render(xs[..|xs| - 1], el) + el(xs[|xs| - 1])
  }

  lemma {:induction false} RenderConcat<T>(a: seq<T>, b: seq<T>, el: T -> string)
    ensures Render(a + b, el) == Render(a, el) + Render(b, el)
    decreases |b|
  {
    if b == [] {
      assert a + b == a;
    } else {
      var b' := b[..|b| - 1];
      assert (a + b)[..|a + b| - 1] == a + b';
      RenderConcat(a, b', el);
    }
  }

  /** Writing one more element appends it. */
  lemma RenderSnoc<T>(a: seq<T>, x: T, el: T -> string)
    ensures Render(a + [x], el) == Render(a, el) + el(x)
  {
    assert (a + [x])[..|a|] == a;
  }

  /** The Gemp XML of a decklist. */
  function GempXml(filename: string, cards: seq<DecklistJson.DeckCard>, outside: seq<Card>): string
  {
    XmlHead(filename) + Render(Units(cards, Quantity), CardElement) + Render(outside, OutsideElement) + DeckClose
  }

  /** `x` written `n` times with `el`, appended to `xml0`: the inner loop of lines 58-62. */
  method AppendCopies<T>(xml0: string, x: T, n: nat, el: T -> string) returns (xml: string)
    ensures xml == xml0 + Render(Repeat(x, n), el)
  {
    xml := xml0;
    var i := 0;
    while i < n
      invariant i <= n
      invariant xml == xml0 + Render(Repeat(x, i), el)
    {
      RenderSnoc(Repeat(x, i), x, el);
      xml := xml + el(x);
      i := i + 1;
    }
  }

  /** The units of `xs` written with `el`, appended to `xml0`: the loop of lines 57-63. */
  method AppendUnits<T>(xml0: string, xs: seq<T>, count: T -> nat, el: T -> string) returns (xml: string)
    ensures xml == xml0 + Render(Units(xs, count), el)
  {
    xml := xml0;
    var n := 0;
    while n < |xs|
      invariant n <= |xs|
      invariant xml == xml0 + Render(Units(xs[..n], count), el)
    {
      var copies := Repeat(xs[n], count(xs[n]));
      RenderConcat(Units(xs[..n], count), copies, el);
      assert xs[..n + 1][..n] == xs[..n];
      assert Units(xs[..n + 1], count) == Units(xs[..n], count) + copies;
      xml := AppendCopies(xml, xs[n], count(xs[n]), el);
      n := n + 1;
    }
    assert xs[..n] == xs;
  }

  /** The elements of `xs` written with `el`, appended to `xml0`: the loop of lines 65-69. */
  method AppendAll<T>(xml0: string, xs: seq<T>, el: T -> string) returns (xml: string)
    ensures xml == xml0 + Render(xs, el)
  {
    xml := xml0;
    var m := 0;
    while m < |xs|
      invariant m <= |xs|
      invariant xml == xml0 + Render(xs[..m], el)
    {
      RenderSnoc(xs[..m], xs[m], el);
      assert xs[..m + 1] == xs[..m] + [xs[m]];
      xml := xml + el(xs[m]);
      m := m + 1;
    }
    assert xs[..m] == xs;
  }

  /** Lines 50-71: the XML of one decklist. */
  method BuildXml(filename: string, cards: seq<DecklistJson.DeckCard>, outside: seq<Card>) returns (xml: string)
    ensures xml == GempXml(filename, cards, outside)
  {
    xml := AppendUnits(XmlHead(filename), cards, Quantity, CardElement);
    xml := AppendAll(xml, outside, OutsideElement);
    xml := xml + DeckClose;
  }

  // ----- the file name (lines 73-102) --------------------------------------------------------

  /** The fields of a JSON decklist that the export reads. */
  datatype JsonDecklist = JsonDecklist(
    cards: seq<DecklistJson.DeckCard>,
    side: Option<Side>,
    tournament: Option<string>,
    tournamentShortName: Option<string>,
    round: Option<string>,
    /** `decklist.archetype.shortName`; `None` when the archetype or its short name is missing. */
    archetypeShortName: Option<string>,
    /** `decklist.player.name`; `None` when the player is missing. */
    playerName: Option<string>)

  /** `a || b` on a possibly-missing string. */
  function OrElse(a: Option<string>, b: string): (r: string)
    ensures Truthy(a) ==> r == a.value
    ensures !Truthy(a) ==> r == b
  {
    if Truthy(a) then a.value else b
  }

  /** `lettersUsedBeforePlayerName`. */
  function LettersBeforeName(d: JsonDecklist, arch: string): nat
  {
    |OrElse(d.tournamentShortName, OrElse(d.tournament, "Unknown"))| + |arch| + |OrElse(ShortRoundName(d.round), "")| + 8
  }

  /** `[TOURNAMENT-ROUND] archetype (player)`. */
  function FilenameStem(d: JsonDecklist, arch: string, player: string): string
  {
    var sr := ShortRoundName(d.round);
    "[" + ToUpper(OrElse(d.tournamentShortName, "Unknown")) + (if Truthy(sr) then "-" + sr.value else "") + "] "
      + arch + " (" + player + ")"
  }

  /**
   * `gempFilename`: the read of a missing archetype, short name or player
   * throws. The player's name is cut by `shorten`: the script's own
   * `ShortPlayerNameAsWritten`, or `ShortPlayerName` as meant.
   */
  function GempFilename(d: JsonDecklist, shorten: (string, int) -> string): (r: Result<string>)
    ensures r.Success? <==> d.archetypeShortName.Some? && d.playerName.Some?
  {
    if d.archetypeShortName.None? || d.playerName.None? then Failure
    else
      var arch := d.archetypeShortName.value;
      var letters := LettersBeforeName(d, arch);
      Success(FilenameStem(d, arch, shorten(GempPlayerName(d.playerName.value), letters)))
  }

  /** The stem is the letters counted before the name, less one or two, plus the short name. */
  lemma FilenameStemLength(d: JsonDecklist, arch: string, player: string)
    requires Truthy(d.tournamentShortName)
    ensures |FilenameStem(d, arch, player)| <= LettersBeforeName(d, arch) - 1 + |player|
  {
    var sr := ShortRoundName(d.round);
    assert |ToUpper(d.tournamentShortName.value)| == |d.tournamentShortName.value|;
    if !Truthy(sr) {
      assert OrElse(sr, "") == "";
    }
  }

  /**
   * With the short name as meant, a decklist with a tournament short name
   * gets a file name stem under 40 characters whenever the name fits as it
   * is, or at least three letters are left for it and it starts with a letter
   * other than a space.
   */
  lemma GempFilenameFits(d: JsonDecklist)
    requires GempFilename(d, ShortPlayerName).Success? && Truthy(d.tournamentShortName)
    requires var letters := LettersBeforeName(d, d.archetypeShortName.value);
      var player := GempPlayerName(d.playerName.value);
      letters + |player| <= MaxFilenameLength
      || (MaxFilenameLength - letters - 6 >= 3 && player != [] && player[0] != ' ')
    ensures |GempFilename(d, ShortPlayerName).value| < MaxFilenameLength
  {
    var arch := d.archetypeShortName.value;
    var letters := LettersBeforeName(d, arch);
    var player := GempPlayerName(d.playerName.value);
    if letters + |player| > MaxFilenameLength {
      ShortPlayerNameFits(player, letters);
    }
    FilenameStemLength(d, arch, ShortPlayerName(player, letters));
  }

  /** What the export writes for one decklist: the file name and its XML. */
  function GempFile(filename: string, d: JsonDecklist, darkCards: seq<Card>, lightCards: seq<Card>,
                    shorten: (string, int) -> string): Result<(string, string)>
  {
    match GempFilename(d, shorten)
    case Failure => Failure
    case Success(stem) =>
      Success((stem + ".gemp.txt", GempXml(filename, d.cards, OutsideDeckCards(d.side, darkCards, lightCards))))
  }

  /** Lines 47-109 for one decklist. */
  method ExportDecklist(filename: string, d: JsonDecklist, darkCards: seq<Card>, lightCards: seq<Card>,
                        shorten: (string, int) -> string)
    returns (r: Result<(string, string)>)
    ensures r == GempFile(filename, d, darkCards, lightCards, shorten)
  {
    var xml := BuildXml(filename, d.cards, OutsideDeckCards(d.side, darkCards, lightCards));
    var stem := GempFilename(d, shorten);
    if stem.Failure? {
      return Failure;
    }
    r := Success((stem.value + ".gemp.txt", xml));
  }

  /** The export of one decklist as a function value, for the folds below. */
  function Exporter(darkCards: seq<Card>, lightCards: seq<Card>, shorten: (string, int) -> string)
    : ((string, JsonDecklist)) -> Result<(string, string)>
  {
    (f: (string, JsonDecklist)) => GempFile(f.0, f.1, darkCards, lightCards, shorten)
  }

  /**
   * The Gemp directory after the decklists, each exported by `exportOne`: a
   * failing one writes nothing, and a later file of the same name replaces an
   * earlier one.
   */
  function Exported(dir: map<string, string>, decklists: seq<(string, JsonDecklist)>,
                    exportOne: ((string, JsonDecklist)) -> Result<(string, string)>): map<string, string>
  {
    if decklists == [] then dir
    else
      var before := Exported(dir, decklists[..|decklists| - 1], exportOne);
      match exportOne(decklists[|decklists| - 1])
      case Failure => before
      case Success(f) => before[f.0 := f.1]
  }

  /** Decklist `f` writes the file `name`. */
  predicate Written(f: (string, JsonDecklist), exportOne: ((string, JsonDecklist)) -> Result<(string, string)>, name: string)
  {
    exportOne(f).Success? && exportOne(f).value.0 == name
  }

  /** A file is written exactly for the names of the decklists that do not fail. */
  lemma {:induction false} ExportedKeys(dir: map<string, string>, decklists: seq<(string, JsonDecklist)>,
                                        exportOne: ((string, JsonDecklist)) -> Result<(string, string)>, name: string)
    ensures name in Exported(dir, decklists, exportOne) <==>
      name in dir || exists i :: 0 <= i < |decklists| && Written(decklists[i], exportOne, name)
    decreases |decklists|
  {
    if decklists != [] {
      var n := |decklists| - 1;
      var init := decklists[..n];
      ExportedKeys(dir, init, exportOne, name);
      var before := Exported(dir, init, exportOne);
      var out := Exported(dir, decklists, exportOne);
      if name in out {
        if name !in before {
          assert Written(decklists[n], exportOne, name);
        }
      }
      if i :| 0 <= i < |decklists| && Written(decklists[i], exportOne, name) {
        if i < n {
          assert Written(init[i], exportOne, name);
        }
        assert name in out;
      }
      if name in dir {
        assert name in before;
      }
    }
  }

  /** Each written file holds the XML of the last decklist of its name. */
  lemma {:induction false} ExportedLast(dir: map<string, string>, decklists: seq<(string, JsonDecklist)>,
                                        exportOne: ((string, JsonDecklist)) -> Result<(string, string)>, name: string, i: nat)
    requires i < |decklists| && Written(decklists[i], exportOne, name)
    requires forall j :: i < j < |decklists| ==> !Written(decklists[j], exportOne, name)
    ensures var out := Exported(dir, decklists, exportOne);
      name in out && out[name] == exportOne(decklists[i]).value.1
    decreases |decklists|
  {
    var n := |decklists| - 1;
    var init := decklists[..n];
    if i < n {
      assert init[i] == decklists[i];
      forall j | i < j < |init| ensures !Written(init[j], exportOne, name) {
        assert init[j] == decklists[j];
      }
      ExportedLast(dir, init, exportOne, name, i);
      assert !Written(decklists[n], exportOne, name);
    }
  }

  /** One more decklist exported: its file is written over what the earlier ones left. */
  lemma ExportedStep(dir: map<string, string>, decklists: seq<(string, JsonDecklist)>, k: nat,
                     exportOne: ((string, JsonDecklist)) -> Result<(string, string)>)
    requires k < |decklists|
    ensures Exported(dir, decklists[..k + 1], exportOne) ==
      match exportOne(decklists[k])
      case Failure => Exported(dir, decklists[..k], exportOne)
      case Success(f) => Exported(dir, decklists[..k], exportOne)[f.0 := f.1]
  {
    assert decklists[..k + 1][..k] == decklists[..k];
  }

  /**
   * Lines 42-110: every decklist is exported in turn into the directory;
   * `shorten` is `ShortPlayerNameAsWritten` for the script as written.
   */
  method ExportAll(dir: map<string, string>, decklists: seq<(string, JsonDecklist)>, darkCards: seq<Card>, lightCards: seq<Card>,
                   shorten: (string, int) -> string)
    returns (out: map<string, string>)
    ensures out == Exported(dir, decklists, Exporter(darkCards, lightCards, shorten))
  {
    ghost var exportOne := Exporter(darkCards, lightCards, shorten);
    out := dir;
    var k := 0;
    while k < |decklists|
      invariant k <= |decklists|
      invariant out == Exported(dir, decklists[..k], exportOne)
    {
      ExportedStep(dir, decklists, k, exportOne);
      var r := ExportDecklist(decklists[k].0, decklists[k].1, darkCards, lightCards, shorten);
      assert r == exportOne(decklists[k]);
      if r.Success? {
        out := out[r.value.0 := r.value.1];
      }
      k := k + 1;
    }
    assert decklists[..k] == decklists;
  }
}
