/**
 * The player registry of generatePlayers.js: player names are cleaned,
 * decklist titles are normalised so that the player regex can find the name,
 * and the players are collected decklist by decklist, in two passes.
 */
module Players {
  import opened Str
  import opened Lists
  import opened Cards
  import Utils
  import Resolver

  // ----- cleanPlayerName (lines 173-240) ------------------------------------

  /** Lines 174-176: a name written entirely in capitals is title-cased. */
  function CapsName(n: string): string
  {
    if ToUpper(n) == n then Utils.TitleCase(n) else n
  }

  /**
   * `name.replace(/\s*(DS|LS)\s*$/, "")`. The tag must be the last two
   * non-`\s` characters; the match starts where the `\s` run before it starts.
   */
  function DropSideTag(s: string): (r: string)
    ensures |r| <= |s| && r == s[..|r|]
  {
    var u := TrimEnd(s);
    if |u| >= 2 && (u[|u| - 2..] == "DS" || u[|u| - 2..] == "LS") then s[..SpaceRunStart(s, |u| - 2)]
    else s
  }

  /** Lines 177-183: capitals, the en-dash, the curly apostrophe, the side tag, the first `\s` run, `trim`. */
  function Tidy(n: string): (r: string)
    ensures Trimmed(r)
  {
    var t1 := CapsName(n);
    var t2 := ReplaceAround(t1, '\U{2013}', "");
    var t3 := ReplaceFirst(t2, "\U{2019}", "'");
    var t4 := DropSideTag(t3);
    var t5 := ReplaceFirstSpaceRun(t4, " ");
    Trim(t5)
  }

  /** The alias rules for first names A to C (lines 186-194). */
  function AliasesAtoC(s: string): string
  {
    var t1 := ReplaceFirst(s, "Andy Davies", "Andrew Davies");
    var t2 := ReplaceFirst(t1, "Bobby Birrer", "Bob Birrer");
    var t3 := ReplaceFirst(t2, "Cedric Vanderhaegen", "Cedrik Vanderhaegen");
    var t4 := ReplaceFirst(t3, "Cedrik Vanderhawgen", "Cedrik Vanderhaegen");
    var t5 := ReplaceFirst(t4, "Chris Goglen", "Chris Gogolen");
    var t6 := ReplaceFirst(t5, "Chris Terwiliger", "Chris Terwilliger");
    var t7 := ReplaceFirst(t6, "Clay Atkin", "Clayton Atkin");
    var t8 := ReplaceFirst(t7, "Connor Britain", "Conor Britain");
    ReplaceFirst(t8, "Corey Lauer", "Cory Lauer")
  }

  /** No rule of the group puts `\s` at either end of a trimmed name. */
  lemma AliasesAtoCTrimmed(s: string)
    requires Trimmed(s)
    ensures Trimmed(AliasesAtoC(s))
  {
    var t1 := ReplaceFirst(s, "Andy Davies", "Andrew Davies");
    ReplaceFirstTrimmed(s, "Andy Davies", "Andrew Davies");
    var t2 := ReplaceFirst(t1, "Bobby Birrer", "Bob Birrer");
    ReplaceFirstTrimmed(t1, "Bobby Birrer", "Bob Birrer");
    var t3 := ReplaceFirst(t2, "Cedric Vanderhaegen", "Cedrik Vanderhaegen");
    ReplaceFirstTrimmed(t2, "Cedric Vanderhaegen", "Cedrik Vanderhaegen");
    var t4 := ReplaceFirst(t3, "Cedrik Vanderhawgen", "Cedrik Vanderhaegen");
    ReplaceFirstTrimmed(t3, "Cedrik Vanderhawgen", "Cedrik Vanderhaegen");
    var t5 := ReplaceFirst(t4, "Chris Goglen", "Chris Gogolen");
    ReplaceFirstTrimmed(t4, "Chris Goglen", "Chris Gogolen");
    var t6 := ReplaceFirst(t5, "Chris Terwiliger", "Chris Terwilliger");
    ReplaceFirstTrimmed(t5, "Chris Terwiliger", "Chris Terwilliger");
    var t7 := ReplaceFirst(t6, "Clay Atkin", "Clayton Atkin");
    ReplaceFirstTrimmed(t6, "Clay Atkin", "Clayton Atkin");
    var t8 := ReplaceFirst(t7, "Connor Britain", "Conor Britain");
    ReplaceFirstTrimmed(t7, "Connor Britain", "Conor Britain");
    var t9 := ReplaceFirst(t8, "Corey Lauer", "Cory Lauer");
    ReplaceFirstTrimmed(t8, "Corey Lauer", "Cory Lauer");
  }

  /** A name holding none of the initials of the group's patterns passes it unchanged. */
  lemma AliasesAtoCUntouched(s: string)
    requires 'A' !in s && 'B' !in s && 'C' !in s
    ensures AliasesAtoC(s) == s
  {
    AbsentFirst(s, "Andy Davies", "Andrew Davies");
    AbsentFirst(s, "Bobby Birrer", "Bob Birrer");
    AbsentFirst(s, "Cedric Vanderhaegen", "Cedrik Vanderhaegen");
    AbsentFirst(s, "Cedrik Vanderhawgen", "Cedrik Vanderhaegen");
    AbsentFirst(s, "Chris Goglen", "Chris Gogolen");
    AbsentFirst(s, "Chris Terwiliger", "Chris Terwilliger");
    AbsentFirst(s, "Clay Atkin", "Clayton Atkin");
    AbsentFirst(s, "Connor Britain", "Conor Britain");
    AbsentFirst(s, "Corey Lauer", "Cory Lauer");
  }

  /** The alias rules for first names F to Je (lines 195-200). */
  function AliasesFtoJe(s: string): string
  {
    var t1 := ReplaceFirst(s, "Fernando Castanon", "Fernando Casta\U{00F1}\U{00F3}n");
    var t2 := ReplaceFirst(t1, "Issac Story", "Isaac Story");
    var t3 := ReplaceFirst(t2, "Jason Reindeau", "Jason Riendeau");
    var t4 := ReplaceFirst(t3, "Jeffrey Lavigne", "Jeff Lavigne");
    var t5 := ReplaceFirst(t4, "Jeff Johns", "Jeffrey Johns");
    ReplaceFirst(t5, "Jeremie Jensen", "Jeramie Jensen")
  }

  /** No rule of the group puts `\s` at either end of a trimmed name. */
  lemma AliasesFtoJeTrimmed(s: string)
    requires Trimmed(s)
    ensures Trimmed(AliasesFtoJe(s))
  {
    var t1 := ReplaceFirst(s, "Fernando Castanon", "Fernando Casta\U{00F1}\U{00F3}n");
    ReplaceFirstTrimmed(s, "Fernando Castanon", "Fernando Casta\U{00F1}\U{00F3}n");
    var t2 := ReplaceFirst(t1, "Issac Story", "Isaac Story");
    ReplaceFirstTrimmed(t1, "Issac Story", "Isaac Story");
    var t3 := ReplaceFirst(t2, "Jason Reindeau", "Jason Riendeau");
    ReplaceFirstTrimmed(t2, "Jason Reindeau", "Jason Riendeau");
    var t4 := ReplaceFirst(t3, "Jeffrey Lavigne", "Jeff Lavigne");
    ReplaceFirstTrimmed(t3, "Jeffrey Lavigne", "Jeff Lavigne");
    var t5 := ReplaceFirst(t4, "Jeff Johns", "Jeffrey Johns");
    ReplaceFirstTrimmed(t4, "Jeff Johns", "Jeffrey Johns");
    var t6 := ReplaceFirst(t5, "Jeremie Jensen", "Jeramie Jensen");
    ReplaceFirstTrimmed(t5, "Jeremie Jensen", "Jeramie Jensen");
  }

  /** A name holding none of the initials of the group's patterns passes it unchanged. */
  lemma AliasesFtoJeUntouched(s: string)
    requires 'F' !in s && 'I' !in s && 'J' !in s
    ensures AliasesFtoJe(s) == s
  {
    AbsentFirst(s, "Fernando Castanon", "Fernando Casta\U{00F1}\U{00F3}n");
    AbsentFirst(s, "Issac Story", "Isaac Story");
    AbsentFirst(s, "Jason Reindeau", "Jason Riendeau");
    AbsentFirst(s, "Jeffrey Lavigne", "Jeff Lavigne");
    AbsentFirst(s, "Jeff Johns", "Jeffrey Johns");
    AbsentFirst(s, "Jeremie Jensen", "Jeramie Jensen");
  }

  /**
   * The alias rules for first names Jo to Ju (lines 201-206), with the rule of
   * line 202 anchored at the end like the rule of line 213, so that it no
   * longer fires inside the longer spellings of lines 203-204 or inside its
   * own output.
   */
  function AliasesJoToJu(s: string): string
  {
    var t1 := ReplaceFirst(s, "Jon Mcfarland", "Jon McFarland");
    var t2 := ReplaceEnd(t1, "Jonas Hagen", "Jonas Hagen N\U{00F8}rregaard");
    var t3 := ReplaceFirst(t2, "Jonas Hagen Noerregaard", "Jonas Hagen N\U{00F8}rregaard");
    var t4 := ReplaceFirst(t3, "Jonas Hagen Norregaard", "Jonas Hagen N\U{00F8}rregaard");
    var t5 := ReplaceFirst(t4, "Jonathon Murray", "Jonathan Murray");
    ReplaceFirst(t5, "Julian-Andres Smolarek", "Julian Smolarek")
  }

  /** No rule of the group puts `\s` at either end of a trimmed name. */
  lemma AliasesJoToJuTrimmed(s: string)
    requires Trimmed(s)
    ensures Trimmed(AliasesJoToJu(s))
  {
    var t1 := ReplaceFirst(s, "Jon Mcfarland", "Jon McFarland");
    ReplaceFirstTrimmed(s, "Jon Mcfarland", "Jon McFarland");
    var t2 := ReplaceEnd(t1, "Jonas Hagen", "Jonas Hagen N\U{00F8}rregaard");
    ReplaceEndTrimmed(t1, "Jonas Hagen", "Jonas Hagen N\U{00F8}rregaard");
    var t3 := ReplaceFirst(t2, "Jonas Hagen Noerregaard", "Jonas Hagen N\U{00F8}rregaard");
    ReplaceFirstTrimmed(t2, "Jonas Hagen Noerregaard", "Jonas Hagen N\U{00F8}rregaard");
    var t4 := ReplaceFirst(t3, "Jonas Hagen Norregaard", "Jonas Hagen N\U{00F8}rregaard");
    ReplaceFirstTrimmed(t3, "Jonas Hagen Norregaard", "Jonas Hagen N\U{00F8}rregaard");
    var t5 := ReplaceFirst(t4, "Jonathon Murray", "Jonathan Murray");
    ReplaceFirstTrimmed(t4, "Jonathon Murray", "Jonathan Murray");
    var t6 := ReplaceFirst(t5, "Julian-Andres Smolarek", "Julian Smolarek");
    ReplaceFirstTrimmed(t5, "Julian-Andres Smolarek", "Julian Smolarek");
  }

  /** A name holding none of the initials of the group's patterns passes it unchanged. */
  lemma AliasesJoToJuUntouched(s: string)
    requires 'J' !in s
    ensures AliasesJoToJu(s) == s
  {
    AbsentFirst(s, "Jon Mcfarland", "Jon McFarland");
    AbsentEnd(s, "Jonas Hagen", "Jonas Hagen N\U{00F8}rregaard");
    AbsentFirst(s, "Jonas Hagen Noerregaard", "Jonas Hagen N\U{00F8}rregaard");
    AbsentFirst(s, "Jonas Hagen Norregaard", "Jonas Hagen N\U{00F8}rregaard");
    AbsentFirst(s, "Jonathon Murray", "Jonathan Murray");
    AbsentFirst(s, "Julian-Andres Smolarek", "Julian Smolarek");
  }

  /** The same rules with line 202 as written: an unanchored `"Jonas Hagen"`. */
  function AliasesJoToJuAsWritten(s: string): string
  {
    var t1 := ReplaceFirst(s, "Jon Mcfarland", "Jon McFarland");
    var t2 := ReplaceFirst(t1, "Jonas Hagen", "Jonas Hagen N\U{00F8}rregaard");
    var t3 := ReplaceFirst(t2, "Jonas Hagen Noerregaard", "Jonas Hagen N\U{00F8}rregaard");
    var t4 := ReplaceFirst(t3, "Jonas Hagen Norregaard", "Jonas Hagen N\U{00F8}rregaard");
    var t5 := ReplaceFirst(t4, "Jonathon Murray", "Jonathan Murray");
    ReplaceFirst(t5, "Julian-Andres Smolarek", "Julian Smolarek")
  }

  /** The alias rules for first names K to Ma (lines 207-212). */
  function AliasesKtoMa(s: string): string
  {
    var t1 := ReplaceFirst(s, "Kendal Halman", "Kendall Halman");
    var t2 := ReplaceFirst(t1, "Martin Den Boef", "Martin den Boef");
    var t3 := ReplaceFirst(t2, "Matthew Carulli", "Matt Carulli");
    var t4 := ReplaceFirst(t3, "Matthew Lutz", "Matt Lutz");
    var t5 := ReplaceFirst(t4, "Matthew Sokol", "Matt Sokol");
    ReplaceFirst(t5, "Matthew Harrison-trainor", "Matthew Harrison-Trainor")
  }

  /** No rule of the group puts `\s` at either end of a trimmed name. */
  lemma AliasesKtoMaTrimmed(s: string)
    requires Trimmed(s)
    ensures Trimmed(AliasesKtoMa(s))
  {
    var t1 := ReplaceFirst(s, "Kendal Halman", "Kendall Halman");
    ReplaceFirstTrimmed(s, "Kendal Halman", "Kendall Halman");
    var t2 := ReplaceFirst(t1, "Martin Den Boef", "Martin den Boef");
    ReplaceFirstTrimmed(t1, "Martin Den Boef", "Martin den Boef");
    var t3 := ReplaceFirst(t2, "Matthew Carulli", "Matt Carulli");
    ReplaceFirstTrimmed(t2, "Matthew Carulli", "Matt Carulli");
    var t4 := ReplaceFirst(t3, "Matthew Lutz", "Matt Lutz");
    ReplaceFirstTrimmed(t3, "Matthew Lutz", "Matt Lutz");
    var t5 := ReplaceFirst(t4, "Matthew Sokol", "Matt Sokol");
    ReplaceFirstTrimmed(t4, "Matthew Sokol", "Matt Sokol");
    var t6 := ReplaceFirst(t5, "Matthew Harrison-trainor", "Matthew Harrison-Trainor");
    ReplaceFirstTrimmed(t5, "Matthew Harrison-trainor", "Matthew Harrison-Trainor");
  }

  /** A name holding none of the initials of the group's patterns passes it unchanged. */
  lemma AliasesKtoMaUntouched(s: string)
    requires 'K' !in s && 'M' !in s
    ensures AliasesKtoMa(s) == s
  {
    AbsentFirst(s, "Kendal Halman", "Kendall Halman");
    AbsentFirst(s, "Martin Den Boef", "Martin den Boef");
    AbsentFirst(s, "Matthew Carulli", "Matt Carulli");
    AbsentFirst(s, "Matthew Lutz", "Matt Lutz");
    AbsentFirst(s, "Matthew Sokol", "Matt Sokol");
    AbsentFirst(s, "Matthew Harrison-trainor", "Matthew Harrison-Trainor");
  }

  /** The alias rules for first names Mi to N (lines 213-217). */
  function AliasesMiToN(s: string): string
  {
    var t1 := ReplaceEnd(s, "Miguel Tarin", "Miguel Tarrin Vegas");
    var t2 := ReplaceFirst(t1, "Mike Pistone", "Michael Pistone");
    var t3 := ReplaceFirst(t2, "Mike Turner", "Michael Turner");
    var t4 := ReplaceFirst(t3, "Nick Abbondanzo", "Nicholas Abbondanzo");
    ReplaceFirst(t4, "Nicholas Abbonzando", "Nicholas Abbondanzo")
  }

  /** No rule of the group puts `\s` at either end of a trimmed name. */
  lemma AliasesMiToNTrimmed(s: string)
    requires Trimmed(s)
    ensures Trimmed(AliasesMiToN(s))
  {
    var t1 := ReplaceEnd(s, "Miguel Tarin", "Miguel Tarrin Vegas");
    ReplaceEndTrimmed(s, "Miguel Tarin", "Miguel Tarrin Vegas");
    var t2 := ReplaceFirst(t1, "Mike Pistone", "Michael Pistone");
    ReplaceFirstTrimmed(t1, "Mike Pistone", "Michael Pistone");
    var t3 := ReplaceFirst(t2, "Mike Turner", "Michael Turner");
    ReplaceFirstTrimmed(t2, "Mike Turner", "Michael Turner");
    var t4 := ReplaceFirst(t3, "Nick Abbondanzo", "Nicholas Abbondanzo");
    ReplaceFirstTrimmed(t3, "Nick Abbondanzo", "Nicholas Abbondanzo");
    var t5 := ReplaceFirst(t4, "Nicholas Abbonzando", "Nicholas Abbondanzo");
    ReplaceFirstTrimmed(t4, "Nicholas Abbonzando", "Nicholas Abbondanzo");
  }

  /** A name holding none of the initials of the group's patterns passes it unchanged. */
  lemma AliasesMiToNUntouched(s: string)
    requires 'M' !in s && 'N' !in s
    ensures AliasesMiToN(s) == s
  {
    AbsentEnd(s, "Miguel Tarin", "Miguel Tarrin Vegas");
    AbsentFirst(s, "Mike Pistone", "Michael Pistone");
    AbsentFirst(s, "Mike Turner", "Michael Turner");
    AbsentFirst(s, "Nick Abbondanzo", "Nicholas Abbondanzo");
    AbsentFirst(s, "Nicholas Abbonzando", "Nicholas Abbondanzo");
  }

  /** The alias rules for first names P to Q (lines 218-221). */
  function AliasesPtoQ(s: string): string
  {
    var t1 := ReplaceFirst(s, "Patrick Johnson", "Pat Johnson");
    var t2 := ReplaceFirst(t1, "Quirin Furgut", "Quirin F\U{00FC}rgut");
    var t3 := ReplaceFirst(t2, "Quirin Fu\U{0308}rgut", "Quirin F\U{00FC}rgut");
    ReplaceFirst(t3, "Quirin F\U{00DC}RGUT", "Quirin F\U{00FC}rgut")
  }

  /** No rule of the group puts `\s` at either end of a trimmed name. */
  lemma AliasesPtoQTrimmed(s: string)
    requires Trimmed(s)
    ensures Trimmed(AliasesPtoQ(s))
  {
    var t1 := ReplaceFirst(s, "Patrick Johnson", "Pat Johnson");
    ReplaceFirstTrimmed(s, "Patrick Johnson", "Pat Johnson");
    var t2 := ReplaceFirst(t1, "Quirin Furgut", "Quirin F\U{00FC}rgut");
    ReplaceFirstTrimmed(t1, "Quirin Furgut", "Quirin F\U{00FC}rgut");
    var t3 := ReplaceFirst(t2, "Quirin Fu\U{0308}rgut", "Quirin F\U{00FC}rgut");
    ReplaceFirstTrimmed(t2, "Quirin Fu\U{0308}rgut", "Quirin F\U{00FC}rgut");
    var t4 := ReplaceFirst(t3, "Quirin F\U{00DC}RGUT", "Quirin F\U{00FC}rgut");
    ReplaceFirstTrimmed(t3, "Quirin F\U{00DC}RGUT", "Quirin F\U{00FC}rgut");
  }

  /** A name holding none of the initials of the group's patterns passes it unchanged. */
  lemma AliasesPtoQUntouched(s: string)
    requires 'P' !in s && 'Q' !in s
    ensures AliasesPtoQ(s) == s
  {
    AbsentFirst(s, "Patrick Johnson", "Pat Johnson");
    AbsentFirst(s, "Quirin Furgut", "Quirin F\U{00FC}rgut");
    AbsentFirst(s, "Quirin Fu\U{0308}rgut", "Quirin F\U{00FC}rgut");
    AbsentFirst(s, "Quirin F\U{00DC}RGUT", "Quirin F\U{00FC}rgut");
  }

  /** The alias rules for first names S (lines 222-228). */
  function AliasesStoSt(s: string): string
  {
    var t1 := ReplaceFirst(s, "Stephan De Vos", "Stephan de Vos");
    var t2 := ReplaceFirst(t1, "Stephan DeVos", "Stephan de Vos");
    var t3 := ReplaceFirst(t2, "Stephen Baroni", "Steve Baroni");
    var t4 := ReplaceFirst(t3, "Stephen Cellucci", "Steve Cellucci");
    var t5 := ReplaceFirst(t4, "Steve Squirlock", "Stephen Squirlock");
    var t6 := ReplaceFirst(t5, "Steve Yaeger", "Steven Yaeger");
    ReplaceFirst(t6, "Stew Yoo", "Stewart Yoo")
  }

  /** No rule of the group puts `\s` at either end of a trimmed name. */
  lemma AliasesStoStTrimmed(s: string)
    requires Trimmed(s)
    ensures Trimmed(AliasesStoSt(s))
  {
    var t1 := ReplaceFirst(s, "Stephan De Vos", "Stephan de Vos");
    ReplaceFirstTrimmed(s, "Stephan De Vos", "Stephan de Vos");
    var t2 := ReplaceFirst(t1, "Stephan DeVos", "Stephan de Vos");
    ReplaceFirstTrimmed(t1, "Stephan DeVos", "Stephan de Vos");
    var t3 := ReplaceFirst(t2, "Stephen Baroni", "Steve Baroni");
    ReplaceFirstTrimmed(t2, "Stephen Baroni", "Steve Baroni");
    var t4 := ReplaceFirst(t3, "Stephen Cellucci", "Steve Cellucci");
    ReplaceFirstTrimmed(t3, "Stephen Cellucci", "Steve Cellucci");
    var t5 := ReplaceFirst(t4, "Steve Squirlock", "Stephen Squirlock");
    ReplaceFirstTrimmed(t4, "Steve Squirlock", "Stephen Squirlock");
    var t6 := ReplaceFirst(t5, "Steve Yaeger", "Steven Yaeger");
    ReplaceFirstTrimmed(t5, "Steve Yaeger", "Steven Yaeger");
    var t7 := ReplaceFirst(t6, "Stew Yoo", "Stewart Yoo");
    ReplaceFirstTrimmed(t6, "Stew Yoo", "Stewart Yoo");
  }

  /** A name holding none of the initials of the group's patterns passes it unchanged. */
  lemma AliasesStoStUntouched(s: string)
    requires 'S' !in s
    ensures AliasesStoSt(s) == s
  {
    AbsentFirst(s, "Stephan De Vos", "Stephan de Vos");
    AbsentFirst(s, "Stephan DeVos", "Stephan de Vos");
    AbsentFirst(s, "Stephen Baroni", "Steve Baroni");
    AbsentFirst(s, "Stephen Cellucci", "Steve Cellucci");
    AbsentFirst(s, "Steve Squirlock", "Stephen Squirlock");
    AbsentFirst(s, "Steve Yaeger", "Steven Yaeger");
    AbsentFirst(s, "Stew Yoo", "Stewart Yoo");
  }

  /** The alias rules for first names T (lines 229-234). */
  function AliasesT(s: string): string
  {
    var t1 := ReplaceFirst(s, "Tamas Papp", "Tam\U{00E1}s Papp");
    var t2 := ReplaceFirst(t1, "Tam\U{00E1}s\U{00A0}Papp", "Tam\U{00E1}s Papp");
    var t3 := ReplaceFirst(t2, "Tommy Santosuosso Jr", "Thomas Santosuosso");
    var t4 := ReplaceFirst(t3, "Tommy Santosuosso", "Thomas Santosuosso");
    var t5 := ReplaceFirst(t4, "Tommy Santosusso", "Thomas Santosuosso");
    ReplaceFirst(t5, "Thomas Santosusso.", "Thomas Santosuosso")
  }

  /** No rule of the group puts `\s` at either end of a trimmed name. */
  lemma AliasesTTrimmed(s: string)
    requires Trimmed(s)
    ensures Trimmed(AliasesT(s))
  {
    var t1 := ReplaceFirst(s, "Tamas Papp", "Tam\U{00E1}s Papp");
    ReplaceFirstTrimmed(s, "Tamas Papp", "Tam\U{00E1}s Papp");
    var t2 := ReplaceFirst(t1, "Tam\U{00E1}s\U{00A0}Papp", "Tam\U{00E1}s Papp");
    ReplaceFirstTrimmed(t1, "Tam\U{00E1}s\U{00A0}Papp", "Tam\U{00E1}s Papp");
    var t3 := ReplaceFirst(t2, "Tommy Santosuosso Jr", "Thomas Santosuosso");
    ReplaceFirstTrimmed(t2, "Tommy Santosuosso Jr", "Thomas Santosuosso");
    var t4 := ReplaceFirst(t3, "Tommy Santosuosso", "Thomas Santosuosso");
    ReplaceFirstTrimmed(t3, "Tommy Santosuosso", "Thomas Santosuosso");
    var t5 := ReplaceFirst(t4, "Tommy Santosusso", "Thomas Santosuosso");
    ReplaceFirstTrimmed(t4, "Tommy Santosusso", "Thomas Santosuosso");
    var t6 := ReplaceFirst(t5, "Thomas Santosusso.", "Thomas Santosuosso");
    ReplaceFirstTrimmed(t5, "Thomas Santosusso.", "Thomas Santosuosso");
  }

  /** A name holding none of the initials of the group's patterns passes it unchanged. */
  lemma AliasesTUntouched(s: string)
    requires 'T' !in s
    ensures AliasesT(s) == s
  {
    AbsentFirst(s, "Tamas Papp", "Tam\U{00E1}s Papp");
    AbsentFirst(s, "Tam\U{00E1}s\U{00A0}Papp", "Tam\U{00E1}s Papp");
    AbsentFirst(s, "Tommy Santosuosso Jr", "Thomas Santosuosso");
    AbsentFirst(s, "Tommy Santosuosso", "Thomas Santosuosso");
    AbsentFirst(s, "Tommy Santosusso", "Thomas Santosuosso");
    AbsentFirst(s, "Thomas Santosusso.", "Thomas Santosuosso");
  }

  /** The alias rules for first names V to Z (lines 235-237). */
  function AliasesVtoZ(s: string): string
  {
    var t1 := ReplaceFirst(s, "Vincent Rossi", "Vinny Rossi");
    var t2 := ReplaceFirst(t1, "William Scinocca", "Will Scinocca");
    ReplaceFirst(t2, "Zack Stenerson", "Zach Stenerson")
  }

  /** No rule of the group puts `\s` at either end of a trimmed name. */
  lemma AliasesVtoZTrimmed(s: string)
    requires Trimmed(s)
    ensures Trimmed(AliasesVtoZ(s))
  {
    var t1 := ReplaceFirst(s, "Vincent Rossi", "Vinny Rossi");
    ReplaceFirstTrimmed(s, "Vincent Rossi", "Vinny Rossi");
    var t2 := ReplaceFirst(t1, "William Scinocca", "Will Scinocca");
    ReplaceFirstTrimmed(t1, "William Scinocca", "Will Scinocca");
    var t3 := ReplaceFirst(t2, "Zack Stenerson", "Zach Stenerson");
    ReplaceFirstTrimmed(t2, "Zack Stenerson", "Zach Stenerson");
  }

  /** A name holding none of the initials of the group's patterns passes it unchanged. */
  lemma AliasesVtoZUntouched(s: string)
    requires 'V' !in s && 'W' !in s && 'Z' !in s
    ensures AliasesVtoZ(s) == s
  {
    AbsentFirst(s, "Vincent Rossi", "Vinny Rossi");
    AbsentFirst(s, "William Scinocca", "Will Scinocca");
    AbsentFirst(s, "Zack Stenerson", "Zach Stenerson");
  }


  /** Used only by the finding below: `N` occurs, but not `i`. */
  lemma AliasesMiToNUntouchedNoI(s: string)
    requires 'M' !in s && 'i' !in s
    ensures AliasesMiToN(s) == s
  {
    AbsentEnd(s, "Miguel Tarin", "Miguel Tarrin Vegas");
    AbsentFirst(s, "Mike Pistone", "Michael Pistone");
    AbsentFirst(s, "Mike Turner", "Michael Turner");
    AbsentCharFirst(s, "Nick Abbondanzo", "Nicholas Abbondanzo", 'i');
    AbsentCharFirst(s, "Nicholas Abbonzando", "Nicholas Abbondanzo", 'i');
  }

  /** The alias rules from line 207 on. */
  function AliasesFromK(s: string): string
  {
    AliasesVtoZ(AliasesT(AliasesStoSt(AliasesPtoQ(AliasesMiToN(AliasesKtoMa(s))))))
  }

  /** Lines 185-237: the alias table, in its order. */
  function Aliases(s: string): string
  {
    AliasesFromK(AliasesJoToJu(AliasesFtoJe(AliasesAtoC(s))))
  }

  /** The alias table with line 202 as written. */
  function AliasesAsWritten(s: string): string
  {
    AliasesFromK(AliasesJoToJuAsWritten(AliasesFtoJe(AliasesAtoC(s))))
  }

  /** `cleanPlayerName`, with the alias rule of line 202 corrected. */
  function CleanPlayerName(n: string): string
  {
    Aliases(Tidy(n))
  }

  /** `cleanPlayerName` as written. */
  function CleanPlayerNameAsWritten(n: string): string
  {
    AliasesAsWritten(Tidy(n))
  }

  // ----- what cleaning a name does ---------------------------------------------

  /**
   * Title-casing happens only to a name written entirely in capitals; it then
   * keeps word starts (already capitals) and lower-cases every other character.
   */
  lemma CapsNameSpec(n: string)
    ensures ToUpper(n) != n ==> CapsName(n) == n
    ensures CapsName(n) != n ==> ToUpper(n) == n
    ensures ToUpper(n) == n ==> |CapsName(n)| == |n|
    ensures ToUpper(n) == n ==>
      forall i :: 0 <= i < |n| ==> CapsName(n)[i] == if Utils.WordStart(n, i) then n[i] else Lower(n[i])
  {
    if ToUpper(n) == n {
      Utils.TitleCaseSpec(n);
      forall i | 0 <= i < |n| && Utils.WordStart(n, i) ensures Upper(n[i]) == n[i] {
        assert ToUpper(n)[i] == n[i];
      }
    }
  }

  /** Every character of `s` that is not the last one of a word. */
  predicate OneWord(a: string)
  {
    a != [] && forall c :: c in a ==> !IsSpace(c)
  }

  /** A name holding a lower-case letter is not title-cased. */
  lemma NotCaps(x: string, k: nat)
    requires k < |x| && IsAsciiLower(x[k])
    ensures CapsName(x) == x
  {
    assert ToUpper(x)[k] != x[k];
  }

  /** Steps 1-3 of `Tidy` leave alone a name with a lower-case letter and no dash or curly apostrophe. */
  lemma TidyHead(x: string, k: nat)
    requires k < |x| && IsAsciiLower(x[k])
    requires '\U{2013}' !in x && '\U{2019}' !in x
    ensures CapsName(x) == x
    ensures ReplaceAround(x, '\U{2013}', "") == x
    ensures ReplaceFirst(x, "\U{2019}", "'") == x
  {
    NotCaps(x, k);
    AbsentIndexOf(x, "\U{2013}");
    AbsentFirst(x, "\U{2019}", "'");
  }

  /** Steps 5-6 of `Tidy` leave alone two trimmed parts joined by one space, the first a single word. */
  lemma TidyTail(a: string, b: string)
    requires OneWord(a) && b != [] && Trimmed(b)
    ensures Trim(ReplaceFirstSpaceRun(a + " " + b, " ")) == a + " " + b
  {
    var s := a + " " + b;
    forall k | 0 <= k < |a| ensures !IsSpace(s[k]) {
      assert s[k] == a[k];
    }
    assert s[|a|] == ' ';
    assert FirstSpace(s, 0) == Some(|a|);
    assert SpaceRunEnd(s, |a| + 1) == |a| + 1 by { assert s[|a| + 1] == b[0]; }
    assert s[..|a|] + " " + s[|a| + 1..] == s;
    assert s[|s| - 1] == b[|b| - 1];
    TrimNoSpaceEnds(s);
  }

  /** A name whose last character is neither `\s` nor `S` carries no side tag. */
  lemma NoSideTag(s: string)
    requires s != [] && !IsSpace(s[|s| - 1]) && s[|s| - 1] != 'S'
    ensures DropSideTag(s) == s
  {
    assert TrimEnd(s) == s;
    if |s| >= 2 {
      assert s[|s| - 2..][1] == s[|s| - 1];
    }
  }

  /** `DS` or `LS` after a space is dropped with the space. */
  lemma EndSideTag(s: string, tag: string)
    requires tag == "DS" || tag == "LS"
    requires s != [] && !IsSpace(s[|s| - 1])
    ensures DropSideTag(s + " " + tag) == s
  {
    var x := s + " " + tag;
    assert x[..|s|] == s by {
      assert forall i :: 0 <= i < |s| ==> x[i] == s[i];
    }
    assert TrimEnd(x) == x;
    assert x[|x| - 2..] == tag;
    SideTagRun(x, |s|);
  }

  /** The space run before the last two characters of `x` is the single space at `n`. */
  lemma SideTagRun(x: string, n: nat)
    requires 0 < n && n + 3 == |x|
    requires x[n] == ' ' && !IsSpace(x[n - 1])
    ensures SpaceRunStart(x, |x| - 2) == n
  {
  }

  /** A leading en-dash and the space after it are removed. */
  lemma LeadingDash(s: string)
    requires s != [] && !IsSpace(s[0])
    ensures ReplaceAround("\U{2013} " + s, '\U{2013}', "") == s
  {
    var x := "\U{2013} " + s;
    assert x[..1] == "\U{2013}";
    StartsWithIff(x, "\U{2013}");
    assert IndexOf(x, "\U{2013}") == 0;
    assert SpaceRunEnd(x, 2) == 2 by { assert x[2] == s[0]; }
    assert x[2..] == s;
  }

  /** `Tidy`, one step at a time. */
  lemma TidySteps(x: string, s: string, u: string)
    requires CapsName(x) == x && ReplaceFirst(ReplaceAround(x, '\U{2013}', ""), "\U{2019}", "'") == s
    requires DropSideTag(s) == u && Trim(ReplaceFirstSpaceRun(u, " ")) == u
    ensures Tidy(x) == u
  {
  }

  /** A plain two-part name (`Andy Davies`) is already tidy. */
  lemma TidyPlain(a: string, b: string)
    requires OneWord(a) && IsAsciiLower(a[|a| - 1])
    requires b != [] && Trimmed(b) && b[|b| - 1] != 'S'
    requires '\U{2013}' !in a && '\U{2013}' !in b && '\U{2019}' !in a && '\U{2019}' !in b
    ensures Tidy(a + " " + b) == a + " " + b
  {
    var s := a + " " + b;
    assert CapsName(s) == s && ReplaceFirst(ReplaceAround(s, '\U{2013}', ""), "\U{2019}", "'") == s by {
      assert s[|a| - 1] == a[|a| - 1];
      TidyHead(s, |a| - 1);
    }
    assert DropSideTag(s) == s by {
      assert s[|s| - 1] == b[|b| - 1];
      NoSideTag(s);
    }
    TidyTail(a, b);
    TidySteps(s, s, s);
  }

  /** A trailing side tag is stripped with the space before it: `Andy Davies DS` is `Andy Davies`. */
  lemma TidyDropsSideTag(a: string, b: string, tag: string)
    requires tag == "DS" || tag == "LS"
    requires OneWord(a) && IsAsciiLower(a[|a| - 1])
    requires b != [] && Trimmed(b)
    requires '\U{2013}' !in a && '\U{2013}' !in b && '\U{2019}' !in a && '\U{2019}' !in b
    ensures Tidy(a + " " + b + " " + tag) == a + " " + b
  {
    var s := a + " " + b;
    var x := s + " " + tag;
    assert CapsName(x) == x && ReplaceFirst(ReplaceAround(x, '\U{2013}', ""), "\U{2019}", "'") == x by {
      assert x[|a| - 1] == a[|a| - 1];
      TidyHead(x, |a| - 1);
    }
    assert DropSideTag(x) == s by {
      assert s[|s| - 1] == b[|b| - 1];
      EndSideTag(s, tag);
    }
    TidyTail(a, b);
    TidySteps(x, x, s);
  }

  /** A leading en-dash is stripped with the space after it: `– Andy Davies` is `Andy Davies`. */
  lemma TidyDropsDash(a: string, b: string)
    requires OneWord(a) && IsAsciiLower(a[|a| - 1])
    requires b != [] && Trimmed(b) && b[|b| - 1] != 'S'
    requires '\U{2013}' !in a && '\U{2013}' !in b && '\U{2019}' !in a && '\U{2019}' !in b
    ensures Tidy("\U{2013} " + (a + " " + b)) == a + " " + b
  {
    var s := a + " " + b;
    var x := "\U{2013} " + s;
    assert ReplaceFirst(ReplaceAround(x, '\U{2013}', ""), "\U{2019}", "'") == s by {
      assert s[0] == a[0];
      LeadingDash(s);
      assert s[|a| - 1] == a[|a| - 1];
      TidyHead(s, |a| - 1);
    }
    assert CapsName(x) == x by {
      assert x[|a| + 1] == a[|a| - 1];
      NotCaps(x, |a| + 1);
    }
    assert DropSideTag(s) == s by {
      assert s[|s| - 1] == b[|b| - 1];
      NoSideTag(s);
    }
    TidyTail(a, b);
    TidySteps(x, s, s);
  }

  /** A cleaned name has no `\s` at either end: no alias rule puts one there. */
  lemma CleanPlayerNameTrimmed(n: string)
    ensures Trimmed(CleanPlayerName(n))
  {
    var t := Tidy(n);
    AliasesAtoCTrimmed(t);
    var t1 := AliasesAtoC(t);
    AliasesFtoJeTrimmed(t1);
    var t2 := AliasesFtoJe(t1);
    AliasesJoToJuTrimmed(t2);
    var t3 := AliasesJoToJu(t2);
    AliasesKtoMaTrimmed(t3);
    var t4 := AliasesKtoMa(t3);
    AliasesMiToNTrimmed(t4);
    var t5 := AliasesMiToN(t4);
    AliasesPtoQTrimmed(t5);
    var t6 := AliasesPtoQ(t5);
    AliasesStoStTrimmed(t6);
    var t7 := AliasesStoSt(t6);
    AliasesTTrimmed(t7);
    var t8 := AliasesT(t7);
    AliasesVtoZTrimmed(t8);
  }

  /** No alias rule from line 207 on applies to a name without the initials `K` to `Z`. */
  lemma AliasesFromKUntouched(s: string)
    requires 'K' !in s && 'M' !in s && 'N' !in s && 'P' !in s && 'Q' !in s && 'S' !in s
    requires 'T' !in s && 'V' !in s && 'W' !in s && 'Z' !in s
    ensures AliasesFromK(s) == s
  {
    AliasesKtoMaUntouched(s);
    AliasesMiToNUntouched(s);
    AliasesPtoQUntouched(s);
    AliasesStoStUntouched(s);
    AliasesTUntouched(s);
    AliasesVtoZUntouched(s);
  }

  // ----- an alias rule that fires ---------------------------------------------

  /** A tidy name that the A-to-C group turns into one the later groups leave alone is cleaned to it. */
  lemma CleanByAtoC(x: string, y: string)
    requires Tidy(x) == x && AliasesAtoC(x) == y
    requires 'F' !in y && 'I' !in y && 'J' !in y
    requires 'K' !in y && 'M' !in y && 'N' !in y && 'P' !in y && 'Q' !in y && 'S' !in y
    requires 'T' !in y && 'V' !in y && 'W' !in y && 'Z' !in y
    ensures CleanPlayerName(x) == y
  {
    AliasesFtoJeUntouched(y);
    AliasesJoToJuUntouched(y);
    AliasesFromKUntouched(y);
  }

  /** Line 186 fires on `Andy Davies`, and no later rule of the group touches the result. */
  lemma AtoCAndyDavies(s: string, t: string)
    requires s == "Andy Davies" && t == "Andrew Davies"
    ensures AliasesAtoC(s) == t
  {
    PresentFirst(s, s, t);
    assert s[|s|..] == [];
    AliasesAtoCRest(s);
  }

  /** No rule of the group touches `Andrew Davies`. */
  lemma AtoCAndrewDavies(s: string, t: string)
    requires s == "Andy Davies" && t == "Andrew Davies"
    ensures AliasesAtoC(t) == t
  {
    AbsentCharFirst(t, s, t, 'y');
    AliasesAtoCRest(t);
  }

  /** The rules of lines 187-194 leave alone a name without `B` and `C`. */
  lemma AliasesAtoCRest(t: string)
    requires 'B' !in t && 'C' !in t
    ensures AliasesAtoC(t) == ReplaceFirst(t, "Andy Davies", "Andrew Davies")
  {
    var t1 := ReplaceFirst(t, "Andy Davies", "Andrew Davies");
    assert 'B' !in t1 && 'C' !in t1 by {
      ReplaceFirstChars(t, "Andy Davies", "Andrew Davies", 'B');
      ReplaceFirstChars(t, "Andy Davies", "Andrew Davies", 'C');
    }
    AbsentFirst(t1, "Bobby Birrer", "Bob Birrer");
    AbsentFirst(t1, "Cedric Vanderhaegen", "Cedrik Vanderhaegen");
    AbsentFirst(t1, "Cedrik Vanderhawgen", "Cedrik Vanderhaegen");
    AbsentFirst(t1, "Chris Goglen", "Chris Gogolen");
    AbsentFirst(t1, "Chris Terwiliger", "Chris Terwilliger");
    AbsentFirst(t1, "Clay Atkin", "Clayton Atkin");
    AbsentFirst(t1, "Connor Britain", "Conor Britain");
    AbsentFirst(t1, "Corey Lauer", "Cory Lauer");
  }

  /** `Andy Davies` is cleaned to `Andrew Davies`, which cleans to itself. */
  lemma CleanAndyDavies(s: string, t: string)
    requires Spelled(s, "Andy Davies") && Spelled(t, "Andrew Davies")
    ensures CleanPlayerName(s) == t && CleanPlayerName(t) == t
  {
    CleanAndyDaviesRaw(s, t);
    CleanAndrewDavies(s, t);
  }

  lemma CleanAndyDaviesRaw(s: string, t: string)
    requires Spelled(s, "Andy Davies") && Spelled(t, "Andrew Davies")
    ensures CleanPlayerName(s) == t
  {
    AndrewLacks(t);
    assert Tidy(s) == s by {
      SpelledSame(s, "Andy Davies");
      assert s == s[..4] + " " + s[5..];
      TidyPlain(s[..4], s[5..]);
    }
    assert AliasesAtoC(s) == t by {
      SpelledSame(s, "Andy Davies");
      SpelledSame(t, "Andrew Davies");
      AtoCAndyDavies(s, t);
    }
    CleanByAtoC(s, t);
  }

  lemma CleanAndrewDavies(s: string, t: string)
    requires Spelled(s, "Andy Davies") && Spelled(t, "Andrew Davies")
    ensures CleanPlayerName(t) == t
  {
    AndrewLacks(t);
    AndrewTidy(t);
    AndrewAtoC(s, t);
    CleanByAtoC(t, t);
  }

  lemma AndrewTidy(t: string)
    requires Spelled(t, "Andrew Davies")
    ensures Tidy(t) == t
  {
    SpelledSame(t, "Andrew Davies");
    assert t == t[..6] + " " + t[7..];
    TidyPlain(t[..6], t[7..]);
  }

  lemma AndrewAtoC(s: string, t: string)
    requires Spelled(s, "Andy Davies") && Spelled(t, "Andrew Davies")
    ensures AliasesAtoC(t) == t
  {
    SpelledSame(s, "Andy Davies");
    SpelledSame(t, "Andrew Davies");
    AtoCAndrewDavies(s, t);
  }

  /** The initials the later alias groups look for are not in `Andrew Davies`. */
  lemma AndrewLacks(t: string)
    requires Spelled(t, "Andrew Davies")
    ensures 'F' !in t && 'I' !in t && 'J' !in t
    ensures 'K' !in t && 'M' !in t && 'N' !in t && 'P' !in t && 'Q' !in t && 'S' !in t
    ensures 'T' !in t && 'V' !in t && 'W' !in t && 'Z' !in t
  {
  }

  // ----- the alias rule of line 202 ------------------------------------------

  /** The characters that `Jonas Hagen Nørregaard` is spelled with. */
  predicate JonasChar(c: char)
  {
    c == 'J' || c == 'o' || c == 'n' || c == 'a' || c == 's' || c == ' ' || c == 'H'
    || c == 'g' || c == 'e' || c == 'N' || c == '\U{00F8}' || c == 'r' || c == 'd'
  }

  predicate JonasSpelled(s: string)
  {
    forall i :: 0 <= i < |s| ==> JonasChar(s[i])
  }

  /** The characters such a name lacks, among those the alias patterns start with. */
  lemma JonasLacks(s: string)
    requires JonasSpelled(s)
    ensures 'A' !in s && 'B' !in s && 'C' !in s && 'F' !in s && 'I' !in s && 'K' !in s && 'M' !in s
    ensures 'P' !in s && 'Q' !in s && 'R' !in s && 'S' !in s && 'T' !in s && 'V' !in s && 'W' !in s
    ensures 'Z' !in s && 'f' !in s && 'i' !in s && 'm' !in s && 'u' !in s
    ensures '\U{2013}' !in s && '\U{2019}' !in s
  {
  }

  /** The pieces of the example: `Jonas Hagen` and the surname part ` Nørregaard`. */
  lemma JonasPieces(r: string, t: string)
    requires r == "Jonas Hagen" && t == " N\U{00F8}rregaard"
    ensures |r| == 11 && |t| == 11 && JonasSpelled(r) && JonasSpelled(t)
    ensures r[..5] == "Jonas" && r[5] == ' ' && r[6..] == "Hagen"
    ensures 'J' !in r[1..] && 'J' !in t && t[2] == '\U{00F8}' && r[10] == 'n' && t[10] == 'd'
    ensures r + t == "Jonas Hagen N\U{00F8}rregaard"
  {
  }

  lemma JonasSpelledConcat(a: string, b: string)
    requires JonasSpelled(a) && JonasSpelled(b)
    ensures JonasSpelled(a + b)
  {
    forall i | 0 <= i < |a + b| ensures JonasChar((a + b)[i]) {
      if i < |a| { assert (a + b)[i] == a[i]; } else { assert (a + b)[i] == b[i - |a|]; }
    }
  }

  /** The groups before line 201 leave such a name alone. */
  lemma JonasBefore(s: string)
    requires JonasSpelled(s)
    ensures AliasesAtoC(s) == s && AliasesFtoJe(s) == s
  {
    JonasLacks(s);
    AliasesAtoCUntouched(s);
    AbsentFirst(s, "Fernando Castanon", "Fernando Casta\U{00F1}\U{00F3}n");
    AbsentFirst(s, "Issac Story", "Isaac Story");
    AbsentCharFirst(s, "Jason Reindeau", "Jason Riendeau", 'R');
    AbsentCharFirst(s, "Jeffrey Lavigne", "Jeff Lavigne", 'f');
    AbsentCharFirst(s, "Jeff Johns", "Jeffrey Johns", 'f');
    AbsentCharFirst(s, "Jeremie Jensen", "Jeramie Jensen", 'm');
  }

  /** The groups from line 207 on leave such a name alone. */
  lemma JonasAfter(s: string)
    requires JonasSpelled(s)
    ensures AliasesFromK(s) == s
  {
    JonasLacks(s);
    AliasesKtoMaUntouched(s);
    AliasesMiToNUntouchedNoI(s);
    AliasesPtoQUntouched(s);
    AliasesStoStUntouched(s);
    AliasesTUntouched(s);
    AliasesVtoZUntouched(s);
  }

  /**
   * The rules of lines 203-206 leave alone a name that starts with the only
   * `J` it holds and has `ø` where the longer spellings have `o`.
   */
  lemma JonasLaterRules(s: string)
    requires JonasSpelled(s) && |s| > 13 && 'J' !in s[1..] && s[13] == '\U{00F8}'
    ensures ReplaceFirst(s, "Jonas Hagen Noerregaard", "Jonas Hagen N\U{00F8}rregaard") == s
    ensures ReplaceFirst(s, "Jonas Hagen Norregaard", "Jonas Hagen N\U{00F8}rregaard") == s
    ensures ReplaceFirst(s, "Jonathon Murray", "Jonathan Murray") == s
    ensures ReplaceFirst(s, "Julian-Andres Smolarek", "Julian Smolarek") == s
  {
    AbsentPastHead(s, "Jonas Hagen Noerregaard", "Jonas Hagen N\U{00F8}rregaard", 13);
    AbsentPastHead(s, "Jonas Hagen Norregaard", "Jonas Hagen N\U{00F8}rregaard", 13);
    JonasLacks(s);
    AbsentCharFirst(s, "Jonathon Murray", "Jonathan Murray", 'M');
    AbsentCharFirst(s, "Julian-Andres Smolarek", "Julian Smolarek", 'u');
  }

  /** The rule of line 201 leaves such a name alone. */
  lemma JonasFirstRule(s: string)
    requires JonasSpelled(s)
    ensures ReplaceFirst(s, "Jon Mcfarland", "Jon McFarland") == s
  {
    JonasLacks(s);
    AbsentCharFirst(s, "Jon Mcfarland", "Jon McFarland", 'M');
  }

  /** `Jonas Hagen` followed by surname parts meets the conditions of `JonasLaterRules`. */
  lemma JonasFollowedBy(r: string, t: string, u: string)
    requires r == "Jonas Hagen" && t == " N\U{00F8}rregaard"
    requires u == t || u == t + t
    ensures JonasSpelled(r + u) && |r + u| > 13 && 'J' !in (r + u)[1..] && (r + u)[13] == '\U{00F8}'
  {
    JonasPieces(r, t);
    if u == t + t { JonasSpelledConcat(t, t); }
    JonasSpelledConcat(r, u);
    assert (r + u)[1..] == r[1..] + u;
    assert (r + u)[13] == u[2];
  }

  /** A name of the example spellings is tidy already. */
  lemma JonasTidy(a: string, b: string)
    requires a == "Jonas" && JonasSpelled(b) && b != [] && b[0] != ' ' && b[|b| - 1] != ' '
    ensures Tidy(a + " " + b) == a + " " + b
  {
    JonasLacks(b);
    assert JonasChar(b[0]) && JonasChar(b[|b| - 1]);
    assert OneWord(a) && IsAsciiLower(a[|a| - 1]);
    assert '\U{2013}' !in a && '\U{2019}' !in a;
    TidyPlain(a, b);
  }

  /** The corrected line 202 turns `Jonas Hagen` into the full name and leaves the full name alone. */
  lemma JoToJuJonas(r: string, t: string)
    requires r == "Jonas Hagen" && t == " N\U{00F8}rregaard"
    ensures AliasesJoToJu(r) == r + t && AliasesJoToJu(r + t) == r + t
  {
    JonasPieces(r, t);
    var j := r + t;
    JonasFollowedBy(r, t, t);
    assert ReplaceFirst(r, "Jon Mcfarland", "Jon McFarland") == r by { JonasFirstRule(r); }
    assert ReplaceEnd(r, "Jonas Hagen", "Jonas Hagen N\U{00F8}rregaard") == j by {
      EndsWithIff(r, r);
      assert r[0..11] == r;
    }
    JonasLaterRules(j);
    assert ReplaceFirst(j, "Jon Mcfarland", "Jon McFarland") == j by { JonasFirstRule(j); }
    assert ReplaceEnd(j, "Jonas Hagen", "Jonas Hagen N\U{00F8}rregaard") == j by {
      EndsWithIff(j, r);
      assert j[21] != r[10];
    }
  }

  /** Line 202 as written also fires inside the full name, which then grows by a second ` Nørregaard`. */
  lemma JoToJuJonasAsWritten(r: string, t: string)
    requires r == "Jonas Hagen" && t == " N\U{00F8}rregaard"
    ensures AliasesJoToJuAsWritten(r) == r + t && AliasesJoToJuAsWritten(r + t) == r + t + t
  {
    JonasPieces(r, t);
    var j := r + t;
    JonasFollowedBy(r, t, t);
    assert ReplaceFirst(r, "Jon Mcfarland", "Jon McFarland") == r by { JonasFirstRule(r); }
    assert ReplaceFirst(r, "Jonas Hagen", "Jonas Hagen N\U{00F8}rregaard") == j by {
      PresentFirst(r, r, j);
      assert r[11..] == [];
    }
    JonasLaterRules(j);
    JoToJuAsWrittenFull(r, t);
  }

  lemma JoToJuAsWrittenFull(r: string, t: string)
    requires r == "Jonas Hagen" && t == " N\U{00F8}rregaard"
    ensures AliasesJoToJuAsWritten(r + t) == r + t + t
  {
    JonasPieces(r, t);
    var j := r + t;
    JonasFollowedBy(r, t, t);
    assert ReplaceFirst(j, "Jon Mcfarland", "Jon McFarland") == j by { JonasFirstRule(j); }
    assert ReplaceFirst(j, "Jonas Hagen", "Jonas Hagen N\U{00F8}rregaard") == j + t by {
      assert j[..11] == r;
      PresentFirst(j, r, j);
      assert j[11..] == t;
    }
    assert JonasSpelled(j + t) && |j + t| > 13 && 'J' !in (j + t)[1..] && (j + t)[13] == '\U{00F8}' by {
      JonasFollowedBy(r, t, t + t);
      assert r + (t + t) == j + t;
    }
    JonasLaterRules(j + t);
  }

  lemma JonasTidyLonger(a: string, h: string, t: string)
    requires a == "Jonas" && JonasSpelled(h) && JonasSpelled(t)
    requires h != [] && h[0] != ' ' && t != [] && t[|t| - 1] != ' '
    ensures Tidy(a + " " + h + t) == a + " " + h + t
  {
    JonasSpelledConcat(h, t);
    assert a + " " + h + t == a + " " + (h + t);
    assert (h + t)[|h + t| - 1] == t[|t| - 1];
    JonasTidy(a, h + t);
  }

  /** Both spellings of the example are tidy already. */
  lemma JonasTidyNames(r: string, t: string)
    requires r == "Jonas Hagen" && t == " N\U{00F8}rregaard"
    ensures Tidy(r) == r && Tidy(r + t) == r + t
  {
    JonasPieces(r, t);
    var a, h := r[..5], r[6..];
    assert r == a + " " + h;
    assert JonasSpelled(h);
    JonasTidy(a, h);
    JonasTidyLonger(a, h, t);
  }

  /** `cleanPlayerName`, one alias group at a time. */
  lemma CleanSteps(x: string, y: string)
    requires Tidy(x) == x && AliasesAtoC(x) == x && AliasesFtoJe(x) == x
    requires AliasesJoToJu(x) == y && AliasesFromK(y) == y
    ensures CleanPlayerName(x) == y
  {
  }

  lemma CleanStepsAsWritten(x: string, y: string)
    requires Tidy(x) == x && AliasesAtoC(x) == x && AliasesFtoJe(x) == x
    requires AliasesJoToJuAsWritten(x) == y && AliasesFromK(y) == y
    ensures CleanPlayerNameAsWritten(x) == y
  {
  }

  /** What each step of the cleaning does to `Jonas Hagen`. */
  lemma JonasRawSteps(r: string, t: string)
    requires Spelled(r, "Jonas Hagen") && Spelled(t, " N\U{00F8}rregaard")
    ensures Tidy(r) == r && AliasesAtoC(r) == r && AliasesFtoJe(r) == r
    ensures AliasesJoToJu(r) == r + t && AliasesJoToJuAsWritten(r) == r + t
  {
    SpelledSame(r, "Jonas Hagen");
    SpelledSame(t, " N\U{00F8}rregaard");
    JonasTidyNames(r, t);
    JoToJuJonas(r, t);
    JoToJuJonasAsWritten(r, t);
    JonasPieces(r, t);
    JonasBefore(r);
  }

  /** What each step of the cleaning does to `Jonas Hagen Nørregaard`, with line 202 corrected. */
  lemma JonasFullSteps(r: string, t: string)
    requires Spelled(r, "Jonas Hagen") && Spelled(t, " N\U{00F8}rregaard")
    ensures Tidy(r + t) == r + t && AliasesAtoC(r + t) == r + t && AliasesFtoJe(r + t) == r + t
    ensures AliasesJoToJu(r + t) == r + t && AliasesFromK(r + t) == r + t
  {
    SpelledSame(r, "Jonas Hagen");
    SpelledSame(t, " N\U{00F8}rregaard");
    JonasTidyNames(r, t);
    JoToJuJonas(r, t);
    JonasPieces(r, t);
    JonasSpelledConcat(r, t);
    JonasBefore(r + t);
    JonasAfter(r + t);
  }

  /** As written, line 202 adds a second ` Nørregaard`, which no later rule removes. */
  lemma JonasGrown(r: string, t: string)
    requires Spelled(r, "Jonas Hagen") && Spelled(t, " N\U{00F8}rregaard")
    ensures AliasesJoToJuAsWritten(r + t) == r + t + t && AliasesFromK(r + t + t) == r + t + t
  {
    SpelledSame(r, "Jonas Hagen");
    SpelledSame(t, " N\U{00F8}rregaard");
    JoToJuAsWrittenFull(r, t);
    JonasPieces(r, t);
    JonasSpelledConcat(r, t);
    JonasSpelledConcat(r + t, t);
    JonasAfter(r + t + t);
  }

  /** With line 202 corrected, `Jonas Hagen` is cleaned to the full name, which cleans to itself. */
  lemma CleanJonas(r: string, t: string)
    requires Spelled(r, "Jonas Hagen") && Spelled(t, " N\U{00F8}rregaard")
    ensures CleanPlayerName(r) == r + t && CleanPlayerName(r + t) == r + t
  {
    JonasRawSteps(r, t);
    JonasFullSteps(r, t);
    CleanSteps(r, r + t);
    CleanSteps(r + t, r + t);
  }

  /**
   * As written, `Jonas Hagen` is cleaned to the full name, but the full name
   * cleans to a longer one: cleaning is not idempotent on it.
   */
  lemma CleanJonasAsWritten(r: string, t: string)
    requires Spelled(r, "Jonas Hagen") && Spelled(t, " N\U{00F8}rregaard")
    ensures CleanPlayerNameAsWritten(r) == r + t
    ensures CleanPlayerNameAsWritten(r + t) == r + t + t != r + t
  {
    JonasRawSteps(r, t);
    JonasFullSteps(r, t);
    JonasGrown(r, t);
    CleanStepsAsWritten(r, r + t);
    CleanStepsAsWritten(r + t, r + t + t);
    assert |t| == 11;
  }
}
