/**
 * downloadDecklists.js: `comparableTitle`, the card-line parse with its
 * side rule (lines 217-259), and the body that `saveGempFile` writes
 * (lines 327-333).
 */
module Download {
  import opened Str
  import opened Lists
  import opened Cards
  import Resolver
  import Gemp

  // ----- comparableTitle (lines 16-56) -----------------------------------------------------

  /** Lines 19-32: corrections of data-entry errors, in order. */
  function EntryFixes(title: string): string
  {
    LaterFixes(EarlyFixes(title))
  }

  /** Lines 19-25: the first seven corrections. */
  function EarlyFixes(title: string): string
  {
    var t1 := ReplaceFirst(title, "Sullustian", "Sullustan");
    var t2 := ReplaceFirst(t1, "/Vengeance of the Dark", "");
    var t3 := ReplaceFirst(t2, "Rebek", "Rebel");
    var t4 := ReplaceWhole(t3, "BB-8", "BB-8 (Beebee-Ate)");
    var t5 := ReplaceFirst(t4, "Bala-Tak", "Bala-Tik");
    var t6 := ReplaceFirst(t5, "Artoo-Deetoo", "Artoo-Detoo");
    ReplaceFirst(t6, "Uhoh", "Uh-oh")
  }

  /** Lines 26-32: the remaining corrections. */
  function LaterFixes(t7: string): string
  {
    var t8 := ReplaceFirst(t7, "Control&amp;Set For Stun", "Control & Set for Stun");
    var t9 := ReplaceFirst(t8, "Short Range Fighters", "Short-Range Fighters");
    var t10 := ReplaceFirst(t9, "Coarse, Rough", "Coarse and Rough");
    var t11 := ReplaceWhole(t10, "Morgan Elsbeth", "Magistrate Morgan Elsbeth");
    var t12 := ReplaceFirst(t11, "SetForStun", "Set for Stun");
    var t13 := ReplaceFirst(t12, "</strong></h1>", "");
    ReplaceAll(t13, "../.", ".../")
  }

  /** Lines 35-40: blanked or renamed cards, and the Alter (V) idiosyncrasy. */
  function Renames(t: string): string
  {
    var r1 := ReplaceFirst(t, "Ralltiir Operations (V)", "Ralltiir Operations");
    var r2 := ReplaceFirst(r1, "Macroscan (V)", "Death Star Reactor Terminal (V)");
    var r3 := ReplaceFirst(r2, "Death Star Reactor Terminal (V)", "Death Star Reactor Terminal");
    ReplaceFirst(r3, "Alter (V)", "Alter (Premiere) (V)")
  }

  /** The characters of the class on line 43: curly and straight quotes, `!`, `<`, `>`, `•`, `…` and `+`. */
  const Dropped: set<char> := {'\U{2018}', '\U{2019}', '\U{201C}', '\U{201D}', '\'', '"', '!', '<', '>', '\U{2022}', '\U{2026}', '+'}

  /** Lines 43-48: marks dropped, two entities decoded, " (AI)" dropped, the back face removed. */
  function Normalize(t: string): string
  {
    var n1 := RemoveChars(t, Dropped);
    var n2 := ReplaceAll(n1, "&amp;", "&");
    var n3 := ReplaceAll(n2, "&nbsp;", " ");
    var n4 := ReplaceFirst(n3, " (AI)", "");
    Resolver.CutBack(Resolver.CollapseVirtualBack(n4))
  }

  /** Lines 43-53: the normalisation, then lower case, then trimmed. */
  function Canonical(t: string): string
  {
    Trim(ToLower(Normalize(t)))
  }

  /** `comparableTitle(title)`. */
  function ComparableTitle(title: string): string
  {
    Canonical(Renames(EntryFixes(title)))
  }

  /** A character that is not an ASCII letter is its own lower and upper case. */
  lemma NotLetterCase(c: char)
    requires !IsAsciiUpper(c) && !IsAsciiLower(c)
    ensures Lower(c) == c && Upper(c) == c
  {
  }

  /** Lower-casing cannot create " /": neither of its characters is a lower-cased letter. */
  lemma ToLowerNoOccurrence(s: string)
    requires Resolver.NoOccurrence(s, " /")
    ensures Resolver.NoOccurrence(ToLower(s), " /")
  {
    var l := ToLower(s);
    forall j | 0 <= j <= |l| ensures !OccursAt(l, " /", j) {
      LoweredOccurrence(s, j);
    }
  }

  /** An occurrence of " /" in the lowered text is one in the text itself. */
  lemma LoweredOccurrence(s: string, j: nat)
    ensures OccursAt(ToLower(s), " /", j) ==> OccursAt(s, " /", j)
  {
    if j + 2 <= |s| {
      ToLowerSlice(s, j, j + 2);
      var x := s[j..j + 2];
      if ToLower(x) == " /" {
        assert Lower(x[0]) == ' ' && Lower(x[1]) == '/';
        assert x == " /";
      }
    }
  }

  /** No dropped character is a letter or a character of the later replacements. */
  lemma DroppedPlain(c: char)
    requires c in Dropped
    ensures c != '&' && c != ' ' && c != '(' && c != 'V' && c != ')' && c != '-' && c != '/'
    ensures !IsAsciiUpper(c) && !IsAsciiLower(c) && !IsDigit(c)
  {
  }

  /** A dropped character stays out through the steps after its removal. */
  lemma CanonicalKeepsOut(t: string, c: char)
    requires c in Dropped
    ensures c !in Canonical(t)
  {
    var n1 := RemoveChars(t, Dropped);
    var n2 := ReplaceAll(n1, "&amp;", "&");
    var n3 := ReplaceAll(n2, "&nbsp;", " ");
    var n4 := ReplaceFirst(n3, " (AI)", "");
    var n5 := Resolver.CollapseVirtualBack(n4);
    var n6 := Resolver.CutBack(n5);
    DroppedPlain(c);
    ReplaceAllChars(n1, "&amp;", "&", c);
    ReplaceAllChars(n2, "&nbsp;", " ", c);
    ReplaceFirstChars(n3, " (AI)", "", c);
    ReplaceAllDotStarChars(n4, [" / "], ["(V)"], " (V)", false, c);
    ReplaceAllDotStarChars(n5, [" /"], [""], "", false, c);
    NotLetterCase(c);
    AbsentLower(n6, c);
    TrimChars(ToLower(n6), c);
  }

  /**
   * What a canonical title cannot hold: none of the dropped characters, no
   * upper-case ASCII letter, no space at either end, and no back face " /".
   */
  lemma CanonicalChars(t: string)
    ensures var r := Canonical(t);
      && (forall c :: c in Dropped ==> c !in r)
      && (forall k :: 0 <= k < |r| ==> !IsAsciiUpper(r[k]))
      && Trimmed(r)
      && Resolver.NoOccurrence(r, " /")
  {
    forall c | c in Dropped ensures c !in Canonical(t) {
      CanonicalKeepsOut(t, c);
    }
    CanonicalLower(t);
    CanonicalNoBack(t);
  }

  lemma CanonicalLower(t: string)
    ensures var r := Canonical(t); forall k :: 0 <= k < |r| ==> !IsAsciiUpper(r[k])
  {
    var l := ToLower(Normalize(t));
    var r := Trim(l);
    var t0 := TrimStart(l);
    assert r == t0[..|r|];
    assert t0 == l[|l| - |t0|..];
    forall k | 0 <= k < |r| ensures !IsAsciiUpper(r[k]) {
      assert r[k] == l[|l| - |t0| + k];
    }
  }

  lemma CanonicalNoBack(t: string)
    ensures Resolver.NoOccurrence(Canonical(t), " /")
  {
    var n := Normalize(t);
    var n4 := ReplaceFirst(ReplaceAll(ReplaceAll(RemoveChars(t, Dropped), "&amp;", "&"), "&nbsp;", " "), " (AI)", "");
    Resolver.CutBackNoSlash(Resolver.CollapseVirtualBack(n4));
    ToLowerNoOccurrence(n);
    Gemp.TrimNoOccurrence(ToLower(n), " /");
  }

  /** `comparableTitle` output is lower case, trimmed, free of the dropped marks and of any back face. */
  lemma ComparableTitleChars(title: string)
    ensures var r := ComparableTitle(title);
      && (forall c :: c in Dropped ==> c !in r)
      && (forall k :: 0 <= k < |r| ==> !IsAsciiUpper(r[k]))
      && Trimmed(r)
      && Resolver.NoOccurrence(r, " /")
  {
    CanonicalChars(Renames(EntryFixes(title)));
  }

  // ----- the back face (lines 47-48) --------------------------------------------------------

  /** A string without the character `p[k]` has no occurrence of `p`. */
  lemma CharAbsentNoOccurrence(u: string, p: string, k: nat)
    requires k < |p| && p[k] !in u
    ensures Resolver.NoOccurrence(u, p)
  {
    forall j | 0 <= j <= |u| ensures !OccursAt(u, p, j) {
      if j + |p| <= |u| {
        assert u[j..j + |p|][k] == u[j + k] && u[j + k] in u;
      }
    }
  }

  /**
   * Line 47: a virtual back face collapses to " (V)". The match starts at the
   * first " / " and runs to the last "(V)" of the line.
   */
  lemma CollapseBackFace(a: string, b: string)
    requires '/' !in a && Gemp.SingleLine(b)
    ensures Resolver.CollapseVirtualBack(a + " / " + b + "(V)") == a + " (V)"
  {
    var s := a + " / " + b + "(V)";
    var n := |a|;
    NoSlashBefore(a, " / " + b + "(V)");
    forall q | 0 <= q < n ensures DotStarAt(s, [" / "], ["(V)"], q, false).None? {
      assert s == a + (" / " + b + "(V)");
      NoStartDotStarAt(s, [" / "], ["(V)"], q, false);
    }
    VirtualBackMatch(a, b);
    DotStarFromFirst(s, [" / "], ["(V)"], 0, n, |s|);
    assert s[..n] == a;
    assert s[|s|..] == [];
    AbsentAllDotStar([], [" / "], ["(V)"], " (V)", false);
  }

  /** Before the end of a `/`-free `a`, no pattern whose second character is `/` occurs in `a + t`. */
  lemma NoSlashBefore(a: string, t: string)
    requires '/' !in a && t != [] && t[0] != '/'
    ensures forall q, p :: 0 <= q < |a| && |p| >= 2 && p[1] == '/' ==> !OccursAt(a + t, p, q)
  {
    var s := a + t;
    forall q, p | 0 <= q < |a| && |p| >= 2 && p[1] == '/' ensures !OccursAt(s, p, q) {
      assert s[q + 1] != '/' by {
        if q + 1 < |a| { assert s[q + 1] == a[q + 1] && a[q + 1] in a; }
      }
      if q + |p| <= |s| { assert s[q..q + |p|][1] == s[q + 1]; }
    }
  }

  /** The match that starts at the " / " runs to the final "(V)". */
  lemma VirtualBackMatch(a: string, b: string)
    requires Gemp.SingleLine(b)
    ensures var s := a + " / " + b + "(V)"; DotStarAt(s, [" / "], ["(V)"], |a|, false) == Some(|s|)
  {
    var s := a + " / " + b + "(V)";
    var n := |a|;
    assert OccursAt(s, " / ", n) by { assert s[n..n + 3] == " / "; }
    VirtualBackSegment(a, b);
    VirtualBackEnd(s);
    Gemp.LastFitIsLast(s, ["(V)"], n + 3, |s|, |s|, |s| - 3, |s|);
  }

  /** After the " / ", the rest of the title is one line. */
  lemma VirtualBackSegment(a: string, b: string)
    requires Gemp.SingleLine(b)
    ensures var s := a + " / " + b + "(V)"; SegEnd(s, |a| + 3) == |s|
  {
    var s := a + " / " + b + "(V)";
    var n := |a|;
    forall k | n + 3 <= k < |s| ensures !IsLineTerminator(s[k]) {
      assert s[k] == (b + "(V)")[k - n - 3];
    }
    SegEndAll(s, n + 3);
  }

  /** A title ending in "(V)" has the alternative "(V)" ending at its end. */
  lemma VirtualBackEnd(s: string)
    requires |s| >= 3 && s[|s| - 3..] == "(V)"
    ensures FirstAltAt(s, ["(V)"], |s| - 3, |s|, false) == Some(|s|)
  {
    var alts, k := ["(V)"], |s| - 3;
    assert OccursAt(s, alts[0], k);
    assert OccursAtCase(s, alts[0], k, false);
    assert k + |alts[0]| <= |s|;
  }

  /** The leftmost match starts at `i` when one starts there and none starts between `p` and `i`. */
  lemma {:induction false} DotStarFromFirst(s: string, as_: seq<string>, bs: seq<string>, p: nat, i: nat, e: nat)
    requires p <= i <= |s| && DotStarAt(s, as_, bs, i, false) == Some(e)
    requires forall q :: p <= q < i ==> DotStarAt(s, as_, bs, q, false).None?
    ensures DotStarFrom(s, as_, bs, p, false) == Some((i, e))
    decreases i - p
  {
    if p < i {
      DotStarFromFirst(s, as_, bs, p + 1, i, e);
    }
  }

  /** Line 48: any other back face is cut from " /" to the end of its line. */
  lemma CutBackFace(a: string, b: string)
    requires '/' !in a && Gemp.SingleLine(b)
    ensures Resolver.CutBack(a + " /" + b) == a
  {
    var s := a + " /" + b;
    var n := |a|;
    forall q | 0 <= q < n ensures DotStarAt(s, [" /"], [""], q, false).None? {
      NoBackBefore(a, b, q);
    }
    BackAt(a, b);
    DotStarFromLeftmost(s, [" /"], [""], 0, false);
    assert DotStarFrom(s, [" /"], [""], 0, false) == Some((n, |s|));
    assert s[..n] == a;
    assert s[|s|..] == [];
    AbsentAllDotStar([], [" /"], [""], "", false);
  }

  /** No " /" begins inside `a`. */
  lemma NoBackBefore(a: string, b: string, q: nat)
    requires '/' !in a && q < |a|
    ensures DotStarAt(a + " /" + b, [" /"], [""], q, false).None?
  {
    var s := a + " /" + b;
    assert s[q + 1] != '/' by {
      if q + 1 < |a| { assert s[q + 1] == a[q + 1] && a[q + 1] in a; }
    }
    assert s[q..q + 2][1] == s[q + 1];
    DotStarToLineEnd(s, " /", q);
  }

  /** The " /" after `a` starts a match that runs to the end of the line. */
  lemma BackAt(a: string, b: string)
    requires Gemp.SingleLine(b)
    ensures DotStarAt(a + " /" + b, [" /"], [""], |a|, false) == Some(|a + " /" + b|)
  {
    var s := a + " /" + b;
    var n := |a|;
    assert OccursAt(s, " /", n) by { assert s[n..n + 2] == " /"; }
    assert SegEnd(s, n + 2) == |s| by {
      forall k | n + 2 <= k < |s| ensures !IsLineTerminator(s[k]) {
        assert s[k] == b[k - n - 2];
      }
      SegEndAll(s, n + 2);
    }
    DotStarToLineEnd(s, " /", n);
  }

  /** Where no line terminator follows `i`, the segment runs to the end. */
  lemma SegEndAll(s: string, i: nat)
    requires i <= |s| && forall k :: i <= k < |s| ==> !IsLineTerminator(s[k])
    ensures SegEnd(s, i) == |s|
  {
  }

  // ----- examples of the renames (lines 24, 36-37) ----------------------------------------------

  /** A letter, a digit, a space or a hyphen: what most card titles are made of. */
  predicate Plain(c: char)
  {
    IsAsciiUpper(c) || IsAsciiLower(c) || IsDigit(c) || c == ' ' || c == '-'
  }

  /** A plain title holds none of the characters the normalisation acts on. */
  lemma PlainChars(t: string)
    requires forall k :: 0 <= k < |t| ==> Plain(t[k])
    ensures (forall c :: c in Dropped ==> c !in t) && '&' !in t && '(' !in t && '/' !in t
  {
    forall c | c in Dropped ensures c !in t {
      DroppedPlain(c);
    }
  }

  /** Lines 43-48 leave a title with no dropped mark, no `&`, no `(` and no `/` alone. */
  lemma NormalizeUntouched(t: string)
    requires forall c :: c in Dropped ==> c !in t
    requires '&' !in t && '(' !in t && '/' !in t
    ensures Normalize(t) == t
  {
    assert RemoveChars(t, Dropped) == t;
    AbsentAll(t, "&amp;", "&");
    AbsentAll(t, "&nbsp;", " ");
    AbsentCharFirst(t, " (AI)", "", '(');
    CharAbsentNoOccurrence(t, " / ", 1);
    Resolver.NoStartAbsent(t, " / ", ["(V)"]);
    CharAbsentNoOccurrence(t, " /", 1);
    Resolver.NoStartAbsent(t, " /", [""]);
  }

  lemma PlainNotSpace(c: char)
    requires Plain(c) && c != ' '
    ensures !IsSpace(c)
  {
  }

  /** A plain title with no space at either end is only lower-cased. */
  lemma CanonicalUntouched(t: string)
    requires forall k :: 0 <= k < |t| ==> Plain(t[k])
    requires t == [] || (t[0] != ' ' && t[|t| - 1] != ' ')
    ensures Canonical(t) == ToLower(t)
  {
    PlainChars(t);
    NormalizeUntouched(t);
    if t != [] {
      PlainNotSpace(t[0]);
      PlainNotSpace(t[|t| - 1]);
    }
    ToLowerTrimmed(t);
    TrimNoSpaceEnds(ToLower(t));
  }

  /** Lower-casing changes letters only, so a trimmed string stays trimmed. */
  lemma ToLowerTrimmed(t: string)
    requires Trimmed(t)
    ensures Trimmed(ToLower(t))
  {
    var l := ToLower(t);
    if t != [] {
      LowerSpace(t[0]);
      LowerSpace(t[|t| - 1]);
    }
  }

  lemma LowerSpace(c: char)
    ensures IsSpace(Lower(c)) == IsSpace(c)
  {
  }

  /**
   * Every data-entry fix needs one of these upper-case letters, a `/`, a `<` or
   * a `.`, or the whole title to be "Morgan Elsbeth": a title without them
   * is left alone.
   */
  lemma EntryFixesUntouched(t: string)
    requires 'S' !in t && '/' !in t && 'R' !in t && 'B' !in t && 'A' !in t && 'U' !in t
    requires 'C' !in t && '<' !in t && '.' !in t && t != "Morgan Elsbeth"
    ensures EntryFixes(t) == t
  {
    EarlyFixesUntouched(t);
    LaterFixesUntouched(t);
  }

  lemma EarlyFixesUntouched(t: string)
    requires 'S' !in t && '/' !in t && 'R' !in t && 'B' !in t && 'A' !in t && 'U' !in t
    ensures EarlyFixes(t) == t
  {
    AbsentCharFirst(t, "Sullustian", "Sullustan", 'S');
    AbsentCharFirst(t, "/Vengeance of the Dark", "", '/');
    AbsentCharFirst(t, "Rebek", "Rebel", 'R');
    assert t != "BB-8" by { assert t == [] || t[0] != 'B' by { if t != [] { assert t[0] in t; } } }
    AbsentCharFirst(t, "Bala-Tak", "Bala-Tik", 'B');
    AbsentCharFirst(t, "Artoo-Deetoo", "Artoo-Detoo", 'A');
    AbsentCharFirst(t, "Uhoh", "Uh-oh", 'U');
  }

  lemma LaterFixesUntouched(t: string)
    requires 'S' !in t && 'C' !in t && '<' !in t && '.' !in t && t != "Morgan Elsbeth"
    ensures LaterFixes(t) == t
  {
    AbsentCharFirst(t, "Control&amp;Set For Stun", "Control & Set for Stun", 'C');
    AbsentCharFirst(t, "Short Range Fighters", "Short-Range Fighters", 'S');
    AbsentCharFirst(t, "Coarse, Rough", "Coarse and Rough", 'C');
    AbsentCharFirst(t, "SetForStun", "Set for Stun", 'S');
    AbsentCharFirst(t, "</strong></h1>", "", '<');
    AbsentAll(t, "../.", ".../");
  }

  /** The renames leave a title with no `(` alone. */
  lemma RenamesUntouched(t: string)
    requires '(' !in t
    ensures Renames(t) == t
  {
    AbsentCharFirst(t, "Ralltiir Operations (V)", "Ralltiir Operations", '(');
    AbsentCharFirst(t, "Macroscan (V)", "Death Star Reactor Terminal (V)", '(');
    AbsentCharFirst(t, "Death Star Reactor Terminal (V)", "Death Star Reactor Terminal", '(');
    AbsentCharFirst(t, "Alter (V)", "Alter (Premiere) (V)", '(');
  }

  /** The characters of "Artoo-Deetoo" that the examples rely on. */
  lemma ArtooFacts(t: string)
    requires Spelled(t, "Artoo-Deetoo")
    ensures |t| == 12 && t[..12] == "Artoo-Deetoo" && t[12..] == []
    ensures 'S' !in t && '/' !in t && 'R' !in t && 'B' !in t
  {
    SpelledSame(t, "Artoo-Deetoo");
  }

  /** The characters of "Artoo-Detoo" that the examples rely on. */
  lemma ArtooDetooFacts(u: string)
    requires Spelled(u, "Artoo-Detoo")
    ensures 'S' !in u && '/' !in u && 'U' !in u && 'C' !in u && '<' !in u && '.' !in u && '(' !in u
    ensures (forall k :: 0 <= k < |u| ==> Plain(u[k])) && u[0] != ' ' && u[|u| - 1] != ' '
  {
  }

  lemma ArtooDetooLower(u: string)
    requires Spelled(u, "Artoo-Detoo")
    ensures ToLower(u) == "artoo-detoo"
  {
    assert forall i :: 0 <= i < |u| ==> Lower(u[i]) == "artoo-detoo"[i];
    LowerSpelled(u, "artoo-detoo");
  }

  /** Lower-casing character by character. */
  lemma LowerSpelled(v: string, w: string)
    requires |v| == |w| && forall i :: 0 <= i < |v| ==> Lower(v[i]) == w[i]
    ensures ToLower(v) == w
  {
  }

  /** Line 24: "Artoo-Deetoo" is corrected before it is compared, and compares as "artoo-detoo". */
  lemma ComparableArtoo(t: string)
    requires Spelled(t, "Artoo-Deetoo")
    ensures ComparableTitle(t) == "artoo-detoo"
  {
    ArtooFacts(t);
    AbsentCharFirst(t, "Sullustian", "Sullustan", 'S');
    AbsentCharFirst(t, "/Vengeance of the Dark", "", '/');
    AbsentCharFirst(t, "Rebek", "Rebel", 'R');
    assert t != "BB-8";
    AbsentCharFirst(t, "Bala-Tak", "Bala-Tik", 'B');
    PresentFirst(t, "Artoo-Deetoo", "Artoo-Detoo");
    var u := ReplaceFirst(t, "Artoo-Deetoo", "Artoo-Detoo");
    assert Spelled(u, "Artoo-Detoo");
    ArtooDetooFacts(u);
    ArtooDetooLower(u);
    AbsentCharFirst(u, "Uhoh", "Uh-oh", 'U');
    AbsentCharFirst(u, "Control&amp;Set For Stun", "Control & Set for Stun", 'C');
    AbsentCharFirst(u, "Short Range Fighters", "Short-Range Fighters", 'S');
    AbsentCharFirst(u, "Coarse, Rough", "Coarse and Rough", 'C');
    assert u != "Morgan Elsbeth";
    AbsentCharFirst(u, "SetForStun", "Set for Stun", 'S');
    AbsentCharFirst(u, "</strong></h1>", "", '<');
    AbsentAll(u, "../.", ".../");
    assert EntryFixes(t) == u;
    RenamesUntouched(u);
    CanonicalUntouched(u);
  }

  /** The characters of "Macroscan (V)" that the examples rely on. */
  lemma MacroscanFacts(t: string)
    requires Spelled(t, "Macroscan (V)")
    ensures |t| == 13 && t[..13] == "Macroscan (V)" && t[13..] == [] && t != "Morgan Elsbeth"
    ensures 'S' !in t && '/' !in t && 'R' !in t && 'B' !in t && 'A' !in t && 'U' !in t
    ensures 'C' !in t && '<' !in t && '.' !in t
  {
    SpelledSame(t, "Macroscan (V)");
  }

  /** The characters of "Death Star Reactor Terminal" that the examples rely on. */
  lemma DeathStarFacts(v: string)
    requires Spelled(v, "Death Star Reactor Terminal")
    ensures '(' !in v && (forall k :: 0 <= k < |v| ==> Plain(v[k])) && v[0] != ' ' && v[|v| - 1] != ' '
  {
  }

  lemma DeathStarLower(v: string)
    requires Spelled(v, "Death Star Reactor Terminal")
    ensures ToLower(v) == "death star reactor terminal"
  {
    assert forall i :: 0 <= i < |v| ==> Lower(v[i]) == "death star reactor terminal"[i];
    LowerSpelled(v, "death star reactor terminal");
  }

  /** Lines 36-37: "Macroscan (V)" is renamed twice and compares as "death star reactor terminal". */
  lemma ComparableMacroscan(t: string)
    requires Spelled(t, "Macroscan (V)")
    ensures ComparableTitle(t) == "death star reactor terminal"
  {
    MacroscanFacts(t);
    EntryFixesUntouched(t);
    AbsentCharFirst(t, "Ralltiir Operations (V)", "Ralltiir Operations", 'R');
    PresentFirst(t, "Macroscan (V)", "Death Star Reactor Terminal (V)");
    var u := ReplaceFirst(t, "Macroscan (V)", "Death Star Reactor Terminal (V)");
    assert Spelled(u, "Death Star Reactor Terminal (V)");
    DeathStarRenamed(u);
    var v := ReplaceFirst(u, "Death Star Reactor Terminal (V)", "Death Star Reactor Terminal");
    DeathStarFacts(v);
    DeathStarLower(v);
    AbsentCharFirst(v, "Alter (V)", "Alter (Premiere) (V)", '(');
    CanonicalUntouched(v);
  }

  /** Line 37: the virtual Death Star Reactor Terminal loses its "(V)". */
  lemma DeathStarRenamed(u: string)
    requires Spelled(u, "Death Star Reactor Terminal (V)")
    ensures Spelled(ReplaceFirst(u, "Death Star Reactor Terminal (V)", "Death Star Reactor Terminal"), "Death Star Reactor Terminal")
  {
    assert u[..31] == "Death Star Reactor Terminal (V)";
    PresentFirst(u, "Death Star Reactor Terminal (V)", "Death Star Reactor Terminal");
    assert u[31..] == [];
  }

  // ----- the card lines (lines 217-259) ------------------------------------------------------

  /** Lines 224-229: a decklist is Dark when its title carries " DS ", or one of two titles entered without it. */
  function DeckSide(decklistTitle: string): Side
  {
    if Contains(decklistTitle, " DS ") || Contains(decklistTitle, "SSAv") || Contains(decklistTitle, "Hunt Down")
    then Dark
    else Light
  }

  /** The side rule by occurrences: Dark exactly when one of the three marks occurs somewhere in the title. */
  lemma DeckSideSpec(decklistTitle: string)
    ensures DeckSide(decklistTitle) == Dark <==>
      exists j :: OccursAt(decklistTitle, " DS ", j) || OccursAt(decklistTitle, "SSAv", j) || OccursAt(decklistTitle, "Hunt Down", j)
  {
    IndexOfSpec(decklistTitle, " DS ");
    IndexOfSpec(decklistTitle, "SSAv");
    IndexOfSpec(decklistTitle, "Hunt Down");
    if DeckSide(decklistTitle) == Dark {
      if Contains(decklistTitle, " DS ") {
        assert OccursAt(decklistTitle, " DS ", IndexOf(decklistTitle, " DS "));
      } else if Contains(decklistTitle, "SSAv") {
        assert OccursAt(decklistTitle, "SSAv", IndexOf(decklistTitle, "SSAv"));
      } else {
        assert OccursAt(decklistTitle, "Hunt Down", IndexOf(decklistTitle, "Hunt Down"));
      }
    }
  }

  /** `^\d{n}x`: the line opens with `n` digits, then `x`. */
  predicate QtyPrefix(line: string, n: nat)
  {
    n < |line| && (forall k :: 0 <= k < n ==> IsDigit(line[k])) && line[n] == 'x'
  }

  /**
   * Line 218: `/^(\d{1,2})x(.*)/` and its two groups. `\d{1,2}` is greedy, so two
   * digits are tried before one; `.` stops at the first line terminator.
   */
  function LineMatch(line: string): Option<(string, string)>
  {
    if |line| >= 3 && IsDigit(line[0]) && IsDigit(line[1]) && line[2] == 'x' then
      Some((line[..2], line[3..SegEnd(line, 3)]))
    else if |line| >= 2 && IsDigit(line[0]) && line[1] == 'x' then
      Some((line[..1], line[2..SegEnd(line, 2)]))
    else
      None
  }

  /**
   * What the match means: a line matches exactly when one or two digits and an `x` open it;
   * the first group is those digits (two when two fit), and the second is the rest of
   * the line up to, not including, the first line terminator.
   */
  lemma LineMatchSpec(line: string)
    ensures LineMatch(line).Some? <==> QtyPrefix(line, 1) || QtyPrefix(line, 2)
    ensures LineMatch(line).Some? ==>
      var (d, rest) := LineMatch(line).value;
      var n := |d| + 1 + |rest|;
      && 1 <= |d| <= 2 && QtyPrefix(line, |d|) && (|d| == 1 ==> !QtyPrefix(line, 2))
      && n <= |line| && line[..n] == d + "x" + rest
      && (forall k :: 0 <= k < |rest| ==> !IsLineTerminator(rest[k]))
      && (n == |line| || IsLineTerminator(line[n]))
  {
    if |line| >= 3 && IsDigit(line[0]) && IsDigit(line[1]) && line[2] == 'x' {
      assert QtyPrefix(line, 2);
      LineMatchWith(line, 2);
    } else if |line| >= 2 && IsDigit(line[0]) && line[1] == 'x' {
      assert QtyPrefix(line, 1) && !QtyPrefix(line, 2);
      LineMatchWith(line, 1);
    } else {
      assert !QtyPrefix(line, 1) && !QtyPrefix(line, 2);
    }
  }

  /** The groups when `n` digits and an `x` open the line. */
  lemma LineMatchWith(line: string, n: nat)
    requires 1 <= n <= 2 && QtyPrefix(line, n)
    ensures var d, rest := line[..n], line[n + 1..SegEnd(line, n + 1)];
      var m := n + 1 + |rest|;
      && m <= |line| && line[..m] == d + "x" + rest
      && (forall k :: 0 <= k < |rest| ==> !IsLineTerminator(rest[k]))
      && (m == |line| || IsLineTerminator(line[m]))
  {
    var e := SegEnd(line, n + 1);
    var d, rest := line[..n], line[n + 1..e];
    assert line[..e] == d + [line[n]] + rest;
    assert forall k :: 0 <= k < |rest| ==> rest[k] == line[n + 1 + k];
  }

  /** The first group is one or two digits. */
  lemma LineMatchDigits(line: string)
    ensures LineMatch(line).Some? ==>
      1 <= |LineMatch(line).value.0| <= 2 && forall k :: 0 <= k < |LineMatch(line).value.0| ==> IsDigit(LineMatch(line).value.0[k])
  {
  }

  /** One card of the deck as `saveJsonFile` and `saveGempFile` receive it (lines 240-244). */
  datatype JsonEntry = JsonEntry(gempId: string, title: string, qty: string)

  /**
   * Lines 233-238: the test `cardData.find` applies, with `comparable` the key titles are
   * compared by (`ComparableTitle` in `ReadCardLines`); the Episode I flag only constrains when set.
   */
  predicate CardFits(c: Card, title: string, side: Side, comparable: string -> string)
  {
    && side == c.side
    && comparable(title) == comparable(c.front.title)
    && (!Contains(title, "(Ep I)") || "Episode I" in c.front.icons)
  }

  /** The test of lines 233-238 as the function handed to `find`. */
  function Fits(title: string, side: Side, comparable: string -> string): Card -> bool
  {
    (c: Card) => CardFits(c, title, side, comparable)
  }

  /**
   * Lines 218-246: the entry one line contributes. The `replace` on line 233 discards
   * its result, so the title is compared and stored with any "(Ep I)" still in it.
   */
  function LineEntry(line: string, side: Side, cardData: seq<Card>, comparable: string -> string): Option<JsonEntry>
  {
    match LineMatch(line)
    case None => None
    case Some(groups) => FoundEntry(Trim(groups.1), Trim(groups.0), side, cardData, comparable)
  }

  /** Lines 233-246: the entry for a matched line, if `cardData.find` finds its card. */
  function FoundEntry(title: string, qty: string, side: Side, cardData: seq<Card>, comparable: string -> string): Option<JsonEntry>
  {
    match Find(cardData, Fits(title, side, comparable))
    case None => None
    case Some(card) => Some(JsonEntry(card.gempId, title, qty))
  }

  /** The entry for a matched line carries the id of the first card that fits, and exists when one fits. */
  lemma FoundEntrySpec(title: string, qty: string, side: Side, cardData: seq<Card>, comparable: string -> string)
    ensures FoundEntry(title, qty, side, cardData, comparable).Some? <==>
      exists j :: 0 <= j < |cardData| && CardFits(cardData[j], title, side, comparable)
    ensures FoundEntry(title, qty, side, cardData, comparable).Some? ==>
      var e := FoundEntry(title, qty, side, cardData, comparable).value;
      && e.qty == qty && e.title == title
      && exists k :: (0 <= k < |cardData| && cardData[k].gempId == e.gempId && CardFits(cardData[k], title, side, comparable)
        && forall j :: 0 <= j < k ==> !CardFits(cardData[j], title, side, comparable))
  {
    var p := Fits(title, side, comparable);
    var r := Find(cardData, p);
    if r.Some? {
      var k :| 0 <= k < |cardData| && cardData[k] == r.value && forall j :: 0 <= j < k ==> !p(cardData[j]);
      assert p(r.value);
    } else {
      forall j | 0 <= j < |cardData| ensures !CardFits(cardData[j], title, side, comparable) {
        assert !p(cardData[j]);
      }
    }
  }

  /** A digit string has no space to trim. */
  lemma TrimDigits(d: string)
    requires forall k :: 0 <= k < |d| ==> IsDigit(d[k])
    ensures Trim(d) == d
  {
    if d != [] {
      assert IsDigit(d[0]) && IsDigit(d[|d| - 1]);
      TrimNoSpaceEnds(d);
    }
  }

  /**
   * A line contributes an entry exactly when it is a card line and some card of the
   * catalog fits its title on the deck's side; the entry carries the line's digits and
   * trimmed title, and the id of the FIRST card that fits.
   */
  lemma LineEntrySpec(line: string, side: Side, cardData: seq<Card>, comparable: string -> string)
    ensures LineEntry(line, side, cardData, comparable).Some? <==>
      LineMatch(line).Some? && exists j :: 0 <= j < |cardData| && CardFits(cardData[j], Trim(LineMatch(line).value.1), side, comparable)
    ensures LineEntry(line, side, cardData, comparable).Some? ==>
      var e := LineEntry(line, side, cardData, comparable).value;
      && e.qty == Trim(LineMatch(line).value.0)
      && e.title == Trim(LineMatch(line).value.1)
      && exists k :: (0 <= k < |cardData| && cardData[k].gempId == e.gempId && CardFits(cardData[k], e.title, side, comparable)
        && forall j :: 0 <= j < k ==> !CardFits(cardData[j], e.title, side, comparable))
  {
    var m := LineMatch(line);
    if m.Some? {
      assert LineEntry(line, side, cardData, comparable) == FoundEntry(Trim(m.value.1), Trim(m.value.0), side, cardData, comparable);
      FoundEntrySpec(Trim(m.value.1), Trim(m.value.0), side, cardData, comparable);
    }
  }

  /** The quantity a card line gives is its digits, untouched by the trim. */
  lemma QtyTrimmed(line: string)
    requires LineMatch(line).Some?
    ensures Trim(LineMatch(line).value.0) == LineMatch(line).value.0
  {
    var d := LineMatch(line).value.0;
    LineMatchDigits(line);
    TrimDigits(d);
  }

  /** Lines 217-259: the entries of the lines, in line order. */
  function Entries(lines: seq<string>, side: Side, cardData: seq<Card>, comparable: string -> string): seq<JsonEntry>
  {
    if lines == [] then []
    else
      Entries(lines[..|lines| - 1], side, cardData, comparable) + Pushed(lines[|lines| - 1], side, cardData, comparable)
  }

  /** What one line pushes onto `jsonContent`: its entry, or nothing. */
  function Pushed(line: string, side: Side, cardData: seq<Card>, comparable: string -> string): seq<JsonEntry>
  {
    match LineEntry(line, side, cardData, comparable)
    case None => []
    case Some(e) => [e]
  }

  /** The entries of two runs of lines, one after the other. */
  lemma {:induction false} EntriesConcat(a: seq<string>, b: seq<string>, side: Side, cardData: seq<Card>, comparable: string -> string)
    ensures Entries(a + b, side, cardData, comparable) == Entries(a, side, cardData, comparable) + Entries(b, side, cardData, comparable)
    decreases |b|
  {
    if b == [] {
      assert a + b == a;
    } else {
      var b', x := b[..|b| - 1], b[|b| - 1];
      assert (a + b)[..|a + b| - 1] == a + b';
      assert (a + b)[|a + b| - 1] == x;
      EntriesConcat(a, b', side, cardData, comparable);
      var ea, eb', px := Entries(a, side, cardData, comparable), Entries(b', side, cardData, comparable), Pushed(x, side, cardData, comparable);
      assert Entries(a + b, side, cardData, comparable) == (ea + eb') + px;
      assert Entries(b, side, cardData, comparable) == eb' + px;
      assert (ea + eb') + px == ea + (eb' + px);
    }
  }

  /** Each entry comes from one line of its own, in order: an entry per line at most, and each is what its line contributes. */
  lemma {:induction false} EntriesFromLines(lines: seq<string>, side: Side, cardData: seq<Card>, comparable: string -> string)
    ensures |Entries(lines, side, cardData, comparable)| <= |lines|
    ensures forall e :: e in Entries(lines, side, cardData, comparable) ==>
      exists k :: 0 <= k < |lines| && LineEntry(lines[k], side, cardData, comparable) == Some(e)
  {
    if lines != [] {
      var init := lines[..|lines| - 1];
      EntriesFromLines(init, side, cardData, comparable);
      forall e | e in Entries(lines, side, cardData, comparable)
        ensures exists k :: 0 <= k < |lines| && LineEntry(lines[k], side, cardData, comparable) == Some(e)
      {
        if e in Entries(init, side, cardData, comparable) {
          var k :| 0 <= k < |init| && LineEntry(init[k], side, cardData, comparable) == Some(e);
          assert lines[k] == init[k];
        } else {
          assert LineEntry(lines[|lines| - 1], side, cardData, comparable) == Some(e);
        }
      }
    }
  }

  /** The quantity of every entry is one or two digits. */
  lemma EntryQty(line: string, side: Side, cardData: seq<Card>, comparable: string -> string, e: JsonEntry)
    requires LineEntry(line, side, cardData, comparable) == Some(e)
    ensures e.qty == LineMatch(line).value.0
    ensures 1 <= |e.qty| <= 2 && forall k :: 0 <= k < |e.qty| ==> IsDigit(e.qty[k])
  {
    var m := LineMatch(line);
    assert m.Some?;
    assert e.qty == Trim(m.value.0) by {
      assert LineEntry(line, side, cardData, comparable) == FoundEntry(Trim(m.value.1), Trim(m.value.0), side, cardData, comparable);
      FoundEntrySpec(Trim(m.value.1), Trim(m.value.0), side, cardData, comparable);
    }
    QtyTrimmed(line);
    LineMatchDigits(line);
  }

  /**
   * Every entry of a deck names a card of the deck's side whose title compares equal to
   * the entry's title and which carries the Episode I icon when the title says "(Ep I)".
   */
  lemma EntryCard(line: string, side: Side, cardData: seq<Card>, comparable: string -> string, e: JsonEntry)
    requires LineEntry(line, side, cardData, comparable) == Some(e)
    ensures exists c :: (c in cardData && c.gempId == e.gempId && c.side == side
      && comparable(e.title) == comparable(c.front.title)
      && (Contains(e.title, "(Ep I)") ==> "Episode I" in c.front.icons))
  {
    LineEntrySpec(line, side, cardData, comparable);
    var k :| 0 <= k < |cardData| && cardData[k].gempId == e.gempId && CardFits(cardData[k], e.title, side, comparable);
    assert cardData[k] in cardData;
  }

  /** What a matched line pushes, given what `find` returned. */
  function PushedFound(card: Option<Card>, title: string, qty: string): seq<JsonEntry>
  {
    if card.Some? then [JsonEntry(card.value.gempId, title, qty)] else []
  }

  /** The entries of one more line. */
  lemma EntriesStep(lines: seq<string>, i: nat, side: Side, cardData: seq<Card>, comparable: string -> string)
    requires i < |lines|
    ensures Entries(lines[..i + 1], side, cardData, comparable) ==
      Entries(lines[..i], side, cardData, comparable) + Pushed(lines[i], side, cardData, comparable)
  {
    assert lines[..i + 1][..i] == lines[..i];
  }

  /**
   * Lines 217-258: `lines.forEach`, pushing the entry of each card line whose card is
   * found; `comparable` is the key titles are compared by.
   */
  method PushEntries(lines: seq<string>, side: Side, cardData: seq<Card>, comparable: string -> string) returns (jsonContent: seq<JsonEntry>)
    ensures jsonContent == Entries(lines, side, cardData, comparable)
  {
    jsonContent := [];
    var i := 0;
    while i < |lines|
      invariant 0 <= i <= |lines|
      invariant jsonContent == Entries(lines[..i], side, cardData, comparable)
    {
      EntriesStep(lines, i, side, cardData, comparable);
      var lineMatches := LineMatch(lines[i]);
      if lineMatches.Some? {
        var qty := Trim(lineMatches.value.0);
        var title := Trim(lineMatches.value.1);
        var card := Find(cardData, Fits(title, side, comparable));
        assert Pushed(lines[i], side, cardData, comparable) == PushedFound(card, title, qty);
        if card.Some? {
          jsonContent := jsonContent + [JsonEntry(card.value.gempId, title, qty)];
        }
      } else {
        assert Pushed(lines[i], side, cardData, comparable) == [];
      }
      i := i + 1;
    }
    assert lines[..|lines|] == lines;
  }

  /** Lines 216-259: the lines of the sanitised content, on the decklist's side, compared by `comparableTitle`. */
  method ReadCardLines(sanitizedContent: string, decklistTitle: string, cardData: seq<Card>) returns (jsonContent: seq<JsonEntry>)
    ensures jsonContent == Entries(Split(sanitizedContent, '\n'), DeckSide(decklistTitle), cardData, ComparableTitle)
  {
    var lines := Split(sanitizedContent, '\n');
    jsonContent := PushEntries(lines, DeckSide(decklistTitle), cardData, ComparableTitle);
  }

  /** All entries of a deck are valid entries of its side (a corollary over the whole content). */
  lemma ReadCardLinesSide(sanitizedContent: string, decklistTitle: string, cardData: seq<Card>, e: JsonEntry)
    requires e in Entries(Split(sanitizedContent, '\n'), DeckSide(decklistTitle), cardData, ComparableTitle)
    ensures exists c :: c in cardData && c.gempId == e.gempId && c.side == DeckSide(decklistTitle)
  {
    var lines := Split(sanitizedContent, '\n');
    EntriesFromLines(lines, DeckSide(decklistTitle), cardData, ComparableTitle);
    var k :| 0 <= k < |lines| && LineEntry(lines[k], DeckSide(decklistTitle), cardData, ComparableTitle) == Some(e);
    EntryCard(lines[k], DeckSide(decklistTitle), cardData, ComparableTitle, e);
  }

  // ----- saveGempFile (lines 326-333) --------------------------------------------------------

  /** Line 327: the declaration and the opening tag. */
  const GempHeader := Gemp.XmlDeclaration + "<deck>\n"

  /** Line 330: one card element, titles written as they are, without escaping. */
  function EntryElement(e: JsonEntry): string
  {
    "<card blueprintId=\"" + e.gempId + "\" title=\"" + e.title + "\"/>\n"
  }

  /** Line 329: `i < card.qty` reads the quantity text as a number. */
  function Copies(e: JsonEntry): nat
  {
    ParseDigits(e.qty)
  }

  /** Lines 327-332: the header, each entry once per copy in list order, then `</deck>` with no newline. */
  function GempContent(jsonContent: seq<JsonEntry>): string
  {
    GempHeader + Gemp.Render(Gemp.Units(jsonContent, Copies), EntryElement) + "</deck>"
  }

  /** Lines 327-332: the string `saveGempFile` builds. */
  method SaveGempContent(jsonContent: seq<JsonEntry>) returns (gempContent: string)
    ensures gempContent == GempContent(jsonContent)
  {
    gempContent := Gemp.AppendUnits(GempHeader, jsonContent, Copies, EntryElement);
    gempContent := gempContent + "</deck>";
  }

  /** The card elements are as many as the copies of all entries together, and two decks' elements follow each other. */
  lemma GempContentUnits(a: seq<JsonEntry>, b: seq<JsonEntry>)
    ensures |Gemp.Units(a, Copies)| == Gemp.Sum(a, Copies)
    ensures Gemp.Render(Gemp.Units(a + b, Copies), EntryElement)
      == Gemp.Render(Gemp.Units(a, Copies), EntryElement) + Gemp.Render(Gemp.Units(b, Copies), EntryElement)
  {
    Gemp.UnitsCount(a, Copies);
    Gemp.UnitsConcat(a, b, Copies);
    Gemp.RenderConcat(Gemp.Units(a, Copies), Gemp.Units(b, Copies), EntryElement);
  }

  /** An entry read from a line is written as many times as the digits before its `x` say, at most 99. */
  lemma EntryCopies(line: string, side: Side, cardData: seq<Card>, comparable: string -> string, e: JsonEntry)
    requires LineEntry(line, side, cardData, comparable) == Some(e)
    ensures Copies(e) == ParseDigits(LineMatch(line).value.0) <= 99
    ensures Gemp.Render(Gemp.Units([e], Copies), EntryElement) == Gemp.Render(Gemp.Repeat(e, Copies(e)), EntryElement)
  {
    EntryQty(line, side, cardData, comparable, e);
    TwoDigitsAtMost99(e.qty);
    Gemp.UnitsOfOne(e, Copies);
  }

  /** One or two decimal digits read as at most 99. */
  lemma TwoDigitsAtMost99(q: string)
    requires |q| <= 2
    ensures ParseDigits(q) <= 99
  {
    if |q| == 2 {
      assert q[..1][..0] == [];
    } else if |q| == 1 {
      assert q[..0] == [];
    }
  }
}
