/** `titleCase`, the one helper shared by the scripts through lib/utils.js. */
module Utils {
  import opened Str

  /**
   * The second step of `titleCase`: the first character of every run of
   * non-`\s` characters is upper-cased. `atStart` says whether the previous
   * character was `\s` (or there was none).
   */
  function Capitalize(s: string, atStart: bool): (r: string)
    ensures |r| == |s|
  {
    if s == [] then []
    else
      var first := if atStart && !IsSpace(s[0]) then Upper(s[0]) else s[0];
      [first] + Capitalize(s[1..], IsSpace(s[0]))
  }

  /** `titleCase(title)`: lower-case everything, then capitalise each word. */
  function TitleCase(s: string): string
  {
    Capitalize(ToLower(s), true)
  }

  /** Index `i` of `s` begins a run of non-`\s` characters. */
  predicate WordStart(s: string, i: int)
    requires 0 <= i < |s|
  {
    !IsSpace(s[i]) && (i == 0 || IsSpace(s[i - 1]))
  }

  lemma {:induction false} CapitalizeAt(s: string, atStart: bool, i: nat)
    requires i < |s|
    ensures Capitalize(s, atStart)[i] ==
      (if !IsSpace(s[i]) && (if i == 0 then atStart else IsSpace(s[i - 1])) then Upper(s[i]) else s[i])
  {
    if i > 0 {
      CapitalizeAt(s[1..], IsSpace(s[0]), i - 1);
    }
  }

  lemma LowerKeepsSpace(c: char)
    ensures IsSpace(Lower(c)) == IsSpace(c) && IsSpace(Upper(c)) == IsSpace(c)
  {
  }

  /**
   * What `titleCase` computes, character by character: the length is kept,
   * a word's first character is upper-cased, every other character is
   * lower-cased (so `\s` characters are unchanged).
   */
  lemma TitleCaseSpec(s: string)
    ensures |TitleCase(s)| == |s|
    ensures forall i :: 0 <= i < |s| && WordStart(s, i) ==> TitleCase(s)[i] == Upper(s[i])
    ensures forall i :: 0 <= i < |s| && !WordStart(s, i) ==> TitleCase(s)[i] == Lower(s[i])
    ensures forall i :: 0 <= i < |s| && IsSpace(s[i]) ==> TitleCase(s)[i] == s[i]
  {
    var t := ToLower(s);
    forall i | 0 <= i < |s|
      ensures TitleCase(s)[i] == (if WordStart(s, i) then Upper(s[i]) else Lower(s[i]))
    {
      CapitalizeAt(t, true, i);
      LowerKeepsSpace(s[i]);
      if i > 0 { LowerKeepsSpace(s[i - 1]); }
      LowerUpper(s[i]);
    }
  }

  /** Title-casing a title-cased string changes nothing. */
  lemma TitleCaseIdempotent(s: string)
    ensures TitleCase(TitleCase(s)) == TitleCase(s)
  {
    var r := TitleCase(s);
    TitleCaseSpec(s);
    TitleCaseSpec(r);
    forall i | 0 <= i < |s| ensures TitleCase(r)[i] == r[i] {
      LowerKeepsSpace(s[i]);
      if i > 0 { LowerKeepsSpace(s[i - 1]); }
      LowerUpper(s[i]);
      assert IsSpace(r[i]) == IsSpace(s[i]);
      if i > 0 { assert IsSpace(r[i - 1]) == IsSpace(s[i - 1]); }
      assert WordStart(r, i) == WordStart(s, i);
    }
  }
}
