# swccg-data decklist pipeline: a Dafny model

swccg-data gathers Star Wars CCG tournament decklists and turns them into data. Its core is a chain of Node scripts:

- `generateDecklistTxt.js` turns the scraped HTML of each decklist into a normalised plain-text list. That list has a header of title, date and url, then headings and "Nx Card Title" lines.
- `generateArchetypes.js` reads those text lists and resolves every card line against the card catalog. For each deck it infers the side, the starting interrupt and the starting location. It then names the deck's archetype through a cascade of objective, interrupt and trump rules. Finally it builds the archetype registry, merging by name and alias.
- `generatePlayers.js` cleans player names through a long alias table. It matches decklist titles to players and records each player's decklist urls in two passes.
- `generateDecklistJson.js` turns each text list into a JSON decklist of unique card entries with quantities, a round and a format.
- `generateDecklistGemp.js` exports the JSON decklists as Gemp XML deck files with short, length-limited file names.
- `downloadDecklists.js` (the card-line loop and the Gemp content it saves) reads card lines, matches them with `comparableTitle` and writes the Gemp deck content.

The model follows the scripts file by file:

| Dafny file | Models |
|---|---|
| `utils.dfy` | `lib/utils.js` |
| `cards.dfy` | the catalog loading and the blanked-objective card |
| `resolver.dfy` | title cleaning, `findCard` and the STARTING section |
| `inference.dfy` | side, mode and starting interrupt |
| `location.dfy` | `determineStartingLocation` |
| `naming.dfy` | `determineArchetypeName` and `mapLongNameToShortName` |
| `registry.dfy` | the archetype registry and `main` of `generateArchetypes.js` |
| `decklist_txt.dfy` | `generateDecklistTxt.js` |
| `decklist_json.dfy` | `generateDecklistJson.js` |
| `gemp.dfy` | `generateDecklistGemp.js` |
| `download.dfy` | the card-line part of `downloadDecklists.js` |
| `players.dfy` | `cleanPlayerName` |
| `player_titles.dfy` | the title rewrites of `generatePlayers.js` |
| `player_registry.dfy` | the two passes of `generatePlayers.js` |

`str.dfy`, `lists.dfy` and `rewrite.dfy` hold the JavaScript string and regular-expression primitives the scripts rely on:

- `replace` and `replaceAll` with literal patterns;
- `.*` that stops at a line terminator;
- leftmost alternation;
- `trim`, `split` and `join`;
- ASCII case mapping.

Shared modelling conventions:

- A possibly-missing JavaScript string is an `Option<string>`, and `Truthy` is its truthiness.
- A script that would throw yields a `Result` failure.
- Mutable objects are classes: `Registry.Registry`, `DecklistJson.Decklist` and `PlayerRegistry.PlayerRegistry`. Their methods are proved against the functions the lemmas talk about.
- Regular expressions built at run time from data are function parameters: the archetype matcher, `rawArchetypeNameFromDecklistTitle` and the player regex.
- Where a script has a bug listed under Findings, the end-to-end members take the affected helper as a parameter. Passing the as-written helper gives the script as written; passing the corrected one gives the script as meant. This applies to `ParseDecklist` (title cleaning), `GempFilename` and the Gemp export (short player name), and `GeneratePlayers` (player-name cleaning).

## Model

| member | source | states |
|---|---|---|
| Utils.Capitalize | lib/utils.js:1-3 | capitalising a word keeps its length, upper-casing only the first letter |
| Utils.CapitalizeAt | lib/utils.js:1-6 | the character at each index after capitalising each word is the upper case of a word start and the original otherwise |
| Utils.LowerKeepsSpace | lib/utils.js:4-6 | lower-casing never creates or removes whitespace, so word boundaries are kept |
| Utils.TitleCaseSpec | lib/utils.js:4-6 | title case keeps the length; every word start is upper case, every other letter lower case, whitespace unchanged |
| Utils.TitleCaseIdempotent | lib/utils.js:4-6 | title-casing a title-cased string changes nothing |
| Cards.BlankedObjectives | generateArchetypes.js:37-45 | the blanked Ralltiir objective fails exactly when the catalog has no card 7_300 |
| Cards.BlankedObjectivesSpec | generateArchetypes.js:37-45 | the blanked copy is one card with gemp id 7_300v, its title ends in "(V)", each abbreviation is suffixed, and side, set and front are otherwise those of 7_300 |
| Cards.AllCards | generateArchetypes.js:37-67 | the catalog is the dark cards, then the light cards, then exactly one more card: the blanked objective of `BlankedObjectives`, with gemp id 7_300v and the blanked title; it fails exactly when neither file holds card 7_300 |
| Resolver.CutBackNoSlash | generateArchetypes.js:1070-1076 | cutting the back face at " /" leaves a title with no " /" |
| Resolver.CleanCardTitleChars | generateArchetypes.js:1070-1076 | a cleaned title holds no `<`, `>` or `•` and no " /" |
| Resolver.CleanCardTitleNull | generateArchetypes.js:1070-1076 | `cleanCardTitle` gives null exactly for a falsy title |
| Resolver.CleanCardTitleIdempotent | generateArchetypes.js:1070-1076 | cleaning a cleaned title changes nothing |
| Resolver.ComparableString | generateArchetypes.js:1078 | a comparable string holds only the letters a to z |
| Resolver.ComparableStringIdempotent | generateArchetypes.js:1078 | making a comparable string comparable again changes nothing |
| Resolver.ComparableStringExample | generateArchetypes.js:1078 | "BB-8" compares as "bb": digits and marks are dropped |
| Resolver.SetQualifier | generateArchetypes.js:929-935 | a set qualifier is read exactly when the title names "(Cloud City)" or "(Special Edition)"; it occurs in the title and asks for set 5 or 7 |
| Resolver.ParseQuerySpec | generateArchetypes.js:923-935 | the query asks for Episode I exactly when the title names "(Episode I)", for set 5 or 7 only when the title names it, and keeps the title unless it has a " ((" qualifier |
| Resolver.FindCardSpec | generateArchetypes.js:923-951 | `findCard` returns the first catalog card whose cleaned title equals the query's and which meets the side, set and Episode I constraints; none only when no card meets them |
| Resolver.FindCardInDecklist | generateArchetypes.js:916-921 | a card is found in the decklist exactly when `findCard` finds a catalog card and some deck card has that card's gempId; the card found is the first such deck card |
| Resolver.FindCard | generateArchetypes.js:923-951 | a card found is a catalog card the query resolves to, and none is found exactly when the query resolves to no catalog card |
| Resolver.QtyMarkAt | generateArchetypes.js:1027-1030 | a quantity mark at an index is three or four characters long and lies within the line |
| Resolver.NextQtyMark | generateArchetypes.js:1027-1030 | the leftmost quantity mark at or after an index, and none exactly when no mark starts there |
| Resolver.CardTitleFromLineSpec | generateArchetypes.js:1027-1030 | the title of a card line is what follows its first quantity mark, and the whole line when it has none |
| Resolver.SplitLines | generateArchetypes.js:92 | splitting on `\r?\n` gives at least one line, and no line holds a "\n" |
| Resolver.IndexFrom | generateArchetypes.js:239-266 | the first index at or after a start that holds the searched line, or none when none does |
| Resolver.StartingSectionLines | generateArchetypes.js:239-266 | the STARTING section holds no blank line |
| Resolver.StartingSectionLinesSpec | generateArchetypes.js:239-266 | without a blank line after STARTING the section stops one line short of the end, so the final line is dropped |
| Resolver.StartingSectionCards | generateArchetypes.js:239-266 | reading the STARTING section fails exactly when one of its titles cleans to null, and otherwise gives the cards found for its lines |
| Resolver.FindAll | generateArchetypes.js:103 | every card found comes from the catalog, and the lookup fails exactly when one of the titles is null |
| Inference.StartingInterrupts | generateArchetypes.js:69-74 | the startable interrupts are the Interrupts whose subtype mentions Starting, and the list fails exactly when an Interrupt has no subtype |
| Inference.CardTitles | generateArchetypes.js:95-97 | every card title read from the decklist lines is non-empty |
| Inference.FindCards | generateArchetypes.js:103 | at most one card per title, every one from the catalog |
| Inference.ModeStateSpec | generateArchetypes.js:1080-1093 | the running maximum count is the count of the running mode, and no value seen so far occurs more often |
| Inference.ModeStateTie | generateArchetypes.js:1080-1093 | on a tie the mode is the value that reached the maximal count first |
| Inference.ModeSpec | generateArchetypes.js:1080-1093 | the mode is none exactly for an empty array; otherwise it occurs in the array with a count no other value exceeds, and on a tie it is the first value to reach that count |
| Inference.Mode | generateArchetypes.js:1080-1093 | the loop over the array returns the mode the specification defines |
| Inference.DetermineSide | generateArchetypes.js:268-279 | a " DS " title makes the deck Dark, else " LS " Light; otherwise a card that cleans to "Knowledge And Defense (V)" makes it Dark, else one that cleans to "Anger, Fear, Aggression (V)" makes it Light; none exactly when none of these holds |
| Inference.DetermineStartingInterruptSpec | generateArchetypes.js:281-301 | a STARTING Interrupt wins; otherwise a single possible interrupt is chosen, else the first not on the less-defining list, and none when there is none or all are on that list |
| Location.SystemName | generateArchetypes.js:331-340 | a system name holds no ":", and is none exactly when the card's title cleans to null |
| Location.SystemNames | generateArchetypes.js:331-340 | the system names of the locations in order, and none exactly when one location has no name |
| Location.WordRunEnd | generateArchetypes.js:462-476 | the end of the run of word characters that starts at an index |
| Location.SystemWordFrom | generateArchetypes.js:462-476 | a word found by `/(LS\|DS) (\w+).*$/` is a non-empty run of word characters |
| Location.SystemWordFromLeftmost | generateArchetypes.js:462-476 | the word is the one after the leftmost "LS " or "DS " followed by a word character, at or after the start; none exactly when no such place exists |
| Location.EliminationFilters | generateArchetypes.js:486-617 | the process of elimination applies exactly sixteen filters, in source order |
| Location.SurvivorsSpec | generateArchetypes.js:486-617 | a location survives exactly when it is in the pool and every active filter keeps it |
| Location.Eliminated | generateArchetypes.js:619-636 | elimination gives a guess exactly when one location survives, or else exactly one survivor is a twix |
| Location.StartingLocationOrder | generateArchetypes.js:638-647 | the starting location is the first guess that names a location, in source order |
| Location.StartingLocationNone | generateArchetypes.js:638-647 | no starting location is found exactly when all seven guesses are empty |
| Location.EliminatedInPool | generateArchetypes.js:619-636 | the location elimination settles on is one of the deck's candidate locations |
| Location.CpOrCrFailure | generateArchetypes.js:317-348 | the Careful Planning (V) / Combat Readiness (V) rule throws exactly when such a deck has no location to search, or one of them has a title that cleans to null |
| Location.EliminationCandidates | generateArchetypes.js:486-617 | the filter loop leaves exactly the survivors of the specification |
| Location.CpOrCrGuess | generateArchetypes.js:317-348 | the loop over the system names gives the rule's guess |
| Location.EliminationGuess | generateArchetypes.js:486-636 | the filter loop and final pick give the elimination guess |
| Location.DetermineStartingLocation | generateArchetypes.js:303-648 | the sequence of guesses gives the starting location the specification defines |
| Naming.SpeciesCounts | generateArchetypes.js:650-677 | one count per representative species, each the number of the deck's characters whose lore, title or extra text mentions it |
| Naming.DetermineRepSpecies | generateArchetypes.js:650-677 | throws exactly when a character has no lore; otherwise a species with a maximal count at or above the threshold, the earliest on a tie, and none when no species reaches the threshold |
| Naming.ObjectiveModifier | generateArchetypes.js:696-760 | only Agents In The Court can throw, through a character without lore; Hidden Base gets " No-Flip" exactly when fewer than five battleground systems are in the deck |
| Naming.LocationPrefixed | generateArchetypes.js:804-813 | an interrupt archetype named after the starting location always gives a name |
| Naming.WookieeArchetype | generateArchetypes.js:784-803 | the Let The Wookiee Win rule always gives a name when it does not throw |
| Naming.PlanningArchetype | generateArchetypes.js:771-783 | the careful-planning rule always gives a name when it does not throw |
| Naming.InterruptArchetype | generateArchetypes.js:761-818 | an interrupt deck always gets a name when the rules do not throw |
| Naming.ObjectiveArchetype | generateArchetypes.js:680-760 | an objective deck's name starts with the objective's title, and without an objective there is no name |
| Naming.HiddenBaseObjective | generateArchetypes.js:732-743 | Hidden Base with fewer than five battleground systems is named "Hidden Base No-Flip" |
| Naming.TrumpRules | generateArchetypes.js:820-913 | the overriding rules are exactly the source's rules, in source order |
| Naming.Overridden | generateArchetypes.js:820-913 | the final name is never empty; with no rule firing it is the cascade's name, or "none" when that is falsy |
| Naming.LastOverrideWins | generateArchetypes.js:820-913 | when several overriding rules fire, the last one decides the name |
| Naming.Trumped | generateArchetypes.js:820-913 | naming throws exactly when the cascade throws, or The Force Is Strong is played with no Skywalker left to choose; the chosen Skywalker is carried on |
| Naming.ArchetypeName | generateArchetypes.js:680-913 | `determineArchetypeName` throws exactly when the cascade throws or The Force Is Strong finds no Skywalker left, and a name it gives is never empty |
| Naming.HothWalkers | generateArchetypes.js:820-913 | Echo Base Operations with Walker Garrison is named "Hoth Walkers", whatever came before |
| Naming.HiddenBaseCascade | generateArchetypes.js:680-760 | the cascade names Hidden Base with few battleground systems "Hidden Base No-Flip" |
| Naming.NoTrump | generateArchetypes.js:820-913 | with no trump firing, the name is the cascade's, or "none" when that is falsy |
| Naming.HiddenBaseNoFlip | generateArchetypes.js:680-913 | with no trump firing, Hidden Base with few battleground systems is "Hidden Base No-Flip" in the end |
| Naming.ShortNameUnder | generateArchetypes.js:1095-1214 | the short name is the table entry of the name after the pre-pass rewrites, and the rewritten name when the table has none |
| Naming.ShortNameUntouched | generateArchetypes.js:1095-1214 | a name no rewrite touches maps to its table entry, or to itself when it has none |
| Naming.MapLongNameToShortName | generateArchetypes.js:1095-1214 | the short name is an entry of the table, or the name after the pre-pass rewrites |
| Registry.ReadDecklist | generateArchetypes.js:84-115 | a decklist's cards all come from the catalog; its title is the first line, its objective the first Objective card and its side `DetermineSide`; reading fails exactly when the STARTING section or the starting location throws |
| Registry.Located | generateArchetypes.js:107-112 | placing the starting location fails exactly when finding it fails, and otherwise sets the location and the side only |
| Registry.FindIn | generateArchetypes.js:953-972 | the first archetype one of whose truthy names compares equal to the query; none when the query is falsy or nothing matches |
| Registry.Union | generateArchetypes.js:1004-1018 | the merged list has no repeats and only truthy entries, and holds every truthy entry of both lists |
| Registry.UnionAbsorbs | generateArchetypes.js:1004-1018 | merging in entries a clean list already holds changes nothing |
| Registry.Created | generateArchetypes.js:975-986 | a created archetype carries the candidate's name, side, short name and lists, with missing lists as empty ones |
| Registry.Updated | generateArchetypes.js:989-1025 | an update keeps the name, takes the candidate's side and truthy short name, and changes no list the candidate does not bring |
| Registry.UpdateIn | generateArchetypes.js:989-1025 | an update never changes the number of archetypes |
| Registry.CreateOrUpdateIn | generateArchetypes.js:1054-1068 | the registry grows by one exactly when the candidate's name finds no archetype |
| Registry.PostProcessed | generateArchetypes.js:230-237 | manual post-processing never changes the number of archetypes |
| Registry.MatchesOwnName | generateArchetypes.js:953-972 | an archetype is found by each of its own truthy names |
| Registry.UpdatedKeepsNames | generateArchetypes.js:989-1025 | whatever query found an archetype still finds it after an update |
| Registry.UpdatedKeepsUrl | generateArchetypes.js:989-1025 | an update keeps every truthy decklist url of the archetype |
| Registry.UpdatedAddsUrl | generateArchetypes.js:989-1025 | an update adds every truthy decklist url of the candidate |
| Registry.RefindIsEarlier | generateArchetypes.js:1020-1025 | the re-find by the found archetype's own name lands on it or on an earlier archetype |
| Registry.CreateOrUpdateSpec | generateArchetypes.js:1054-1068 | create-or-update keeps every existing name; it appends the created archetype when the name is new, and otherwise updates one archetype at or before the found one to the candidate's side |
| Registry.CreateOrUpdateNamed | generateArchetypes.js:1054-1068 | a candidate with a name keeps every archetype named |
| Registry.CreateOrUpdateFindable | generateArchetypes.js:1054-1068 | after the call, the candidate's name finds an archetype |
| Registry.CreateOrUpdateKeepsUrl | generateArchetypes.js:1054-1068 | a truthy url an archetype holds stays with that archetype |
| Registry.CreateOrUpdateAddsUrl | generateArchetypes.js:1054-1068 | a truthy url of the candidate lands on some archetype |
| Registry.AbbrAlias | generateArchetypes.js:172-174 | the alias is the abbreviation's front face, with " (V)" added exactly when the abbreviation holds a "V" and the front does not already end in "(V)" |
| Registry.AbbrAliases | generateArchetypes.js:172-174 | one derived alias per abbreviation, in order |
| Registry.SeedCandidate | generateArchetypes.js:158-198 | a seed candidate has the decklist's side, no urls, the short name, and aliases equal to its matchers; these hold the name, the short name and each abbreviation of the objective with its derived alias, without repeats |
| Registry.ObjectiveAliases | generateArchetypes.js:165-181 | the alias list has no repeats and holds exactly the name, the short name, the abbreviations and the derived aliases |
| Registry.ArchetypeNamerNamesSomething | generateArchetypes.js:820-913 | `determineArchetypeName` never returns an empty name |
| Registry.SeedAllGrowth | generateArchetypes.js:158-198 | seeding grows the registry by exactly the number of archetypes it reports created |
| Registry.SeedAllNamed | generateArchetypes.js:158-198 | seeding keeps every archetype named |
| Registry.SeedStepFindable | generateArchetypes.js:158-198 | after its step, a decklist's archetype name finds an archetype |
| Registry.TitleCandidate | generateArchetypes.js:200-228 | the title candidate has the decklist's side and url and the raw name as matcher; it reuses an existing archetype's name exactly when the raw name or the named archetype is found, and otherwise takes the derived name |
| Registry.TitleStepGrowth | generateArchetypes.js:200-228 | a title step updates exactly when it found an archetype, appends otherwise, and keeps the registry named |
| Registry.TitleSeedAllGrowth | generateArchetypes.js:200-228 | the title pass grows the registry by exactly its created candidates, and every decklist is either created or updated |
| Registry.TitleStepAssigns | generateArchetypes.js:200-228 | a title step keeps every assigned url assigned and assigns its decklist's url |
| Registry.TitleSeedAllKeeps | generateArchetypes.js:200-228 | a url assigned before the title pass is still assigned after it |
| Registry.TitleSeedAllAssignsLast | generateArchetypes.js:200-228 | the last decklist's truthy url is assigned once its step is done |
| Registry.TitleSeedAllAssigns | generateArchetypes.js:200-228 | after the title pass every decklist with a truthy url is listed by some archetype |
| Registry.PostProcessedAssigns | generateArchetypes.js:230-237 | post-processing leaves every url assignment as it was |
| Registry.SeededExtends | generateArchetypes.js:158-198 | a successful step extends the run by one decklist and counts a creation |
| Registry.SeededFails | generateArchetypes.js:158-198 | a step that throws makes the whole run throw |
| Registry.TitleSeedAllNext | generateArchetypes.js:200-228 | one more decklist adds its candidate to the created or the updated list, or stops the run if it throws |
| Registry.SeededStops | generateArchetypes.js:158-198 | once a step has thrown, the run throws whatever follows |
| Registry.TitleSeedAllStops | generateArchetypes.js:200-228 | once a title step has thrown, the title pass throws whatever follows |
| Registry.Registry.constructor | generateArchetypes.js:47-50 | the registry starts with no archetypes and no chosen Skywalker |
| Registry.Registry.Create | generateArchetypes.js:975-986 | `createArchetype` appends the created archetype and returns it |
| Registry.Registry.Update | generateArchetypes.js:989-1025 | `updateArchetype` changes the registry as `UpdateIn` says |
| Registry.Registry.CreateOrUpdate | generateArchetypes.js:1054-1068 | `createOrUpdateArchetype` returns the created archetype exactly when the name was new, and the registry grows by one exactly then |
| Registry.Registry.SeedArchetypes | generateArchetypes.js:158-198 | the seeding loop succeeds exactly when the seeding specification does, and leaves its state and count |
| Registry.Registry.SeedOne | generateArchetypes.js:158-198 | one seeding step as specified; a throwing step leaves the registry unchanged |
| Registry.Registry.SeedFromTitles | generateArchetypes.js:200-228 | the title loop succeeds exactly when the title pass does, and leaves its state and candidates |
| Registry.Registry.TitleSeedOne | generateArchetypes.js:200-228 | one title step as specified; a throwing step leaves the registry unchanged |
| Registry.Registry.ManualPostProcessing | generateArchetypes.js:230-237 | post-processing changes the registry as `PostProcessed` says |
| Registry.ReadAll | generateArchetypes.js:84-115 | every text file read in order, and failure exactly when one of them throws |
| Registry.PipelineParts | generateArchetypes.js:52-156 | a successful run read every file, seeded, seeded from titles and post-processed, in that order |
| Registry.PipelineNamed | generateArchetypes.js:52-156 | every archetype of the output has a name |
| Registry.PipelineAssignsEveryUrl | generateArchetypes.js:52-156 | every decklist with a url is listed by some archetype of the output |
| Registry.RunPipeline | generateArchetypes.js:52-156 | the script's steps on one registry give the pipeline's result |
| Registry.BuildArchetypes | generateArchetypes.js:52-156 | the script run on the two card files gives the generated archetypes |
| DecklistTxt.CardTypes | generateDecklistTxt.js:31-35 | the card types have no repeats; every card's type, with any "Jedi Test …" as "Jedi Test", is in the list, and nothing else is |
| DecklistTxt.ObjectiveTitles | generateDecklistTxt.js:36-42 | every Objective title of the catalog is listed, every entry before the last is one, and the last is the blanked Ralltiir title |
| DecklistTxt.ObjectiveTitleList | generateDecklistTxt.js:36-41 | the titles of the Objective cards and nothing else |
| DecklistTxt.BreakLen | generateDecklistTxt.js:311-322 | a line-break tag at the front is no longer than the text |
| DecklistTxt.SkipBreaks | generateDecklistTxt.js:311-322 | what is left after a run of line-break tags starts with none |
| DecklistTxt.TagClose | generateDecklistTxt.js:311-322 | the end of a lazy `<.*?>` is the first ">" on the line, and none exactly when the line has no ">" |
| DecklistTxt.StripTagsKeepsNoClose | generateDecklistTxt.js:311-322 | removing tags brings no ">" onto a first line that had none |
| DecklistTxt.StripTagsLeavesNoTag | generateDecklistTxt.js:311-322 | no tag survives: every "<" left in the text has no ">" after it on its line |
| DecklistTxt.LastLineStart | generateDecklistTxt.js:253-271 | the last line starts after the last line terminator |
| DecklistTxt.PlusEffectCore | generateDecklistTxt.js:253-271 | a "+N effect" match is never empty |
| DecklistTxt.PlusEffectAt | generateDecklistTxt.js:253-271 | a "+N effects" match at the front is never empty |
| DecklistTxt.SpaceBeforeSlash | generateDecklistTxt.js:279-281 | spacing before "/" brings in no character but spaces |
| DecklistTxt.SpaceAfterSlash | generateDecklistTxt.js:279-281 | spacing after "/" brings in no character but spaces |
| DecklistTxt.CollapseSpaces | generateDecklistTxt.js:285 | no two spaces are left side by side, no character is brought in, and the first character is kept |
| DecklistTxt.TitleCharFixesDrop | generateDecklistTxt.js:273-278 | the character fixes leave no bullet, curly quote, backtick, acute accent or ellipsis character |
| DecklistTxt.TitleSpacingKeepsOut | generateDecklistTxt.js:279-285 | the spacing fixes bring in nothing but spaces and "/" |
| DecklistTxt.CleanTitleTextDrops | generateDecklistTxt.js:273-285 | the title after the character and spacing fixes, before the typo table, holds none of the characters the fixes clean away |
| DecklistTxt.TitleSpacingClean | generateDecklistTxt.js:279-285 | the title after the spacing fixes, before the typo table, has no double space and no whitespace at either end |
| DecklistTxt.NormalizeCardTitleClean | generateDecklistTxt.js:273-286 | `normalizeCardTitle` returns a title with no double space, no whitespace at either end and none of the characters the fixes clean away, the typo table included |
| DecklistTxt.LineFixesTidy | generateDecklistTxt.js:286 | every rule of the typo table turns a tidy title into a tidy title |
| DecklistTxt.GlobalFixesArtoo | generateDecklistTxt.js:467-474 | the global fixes spell "Artoo-Deetoo" as "Artoo-Detoo" in a text the five fixes before it cannot touch, and hand the corrected text to the rest of the table |
| DecklistTxt.RemoveHtmlPlain | generateDecklistTxt.js:311-322 | text with no tag, entity or typographic quote comes through unchanged |
| DecklistTxt.RemoveHtmlBreaks | generateDecklistTxt.js:311-322 | a run of `<br>` and `<br/>` tags between plain texts becomes one "\n" |
| DecklistTxt.RemoveHtmlParagraph | generateDecklistTxt.js:311-322 | a `</p>` between plain texts becomes "\n\n" |
| DecklistTxt.RemoveHtmlTag | generateDecklistTxt.js:311-322 | any other tag between plain texts is removed |
| DecklistTxt.RemoveHtmlEntities | generateDecklistTxt.js:311-322 | `&amp;`, `&nbsp;`, `&lt;` and `&gt;` between plain texts become "&", " ", "<" and ">" |
| DecklistTxt.EuroPlainLine | generateDecklistTxt.js:253-271 | an ordinary card line with no "+", "(" or "[", not starting with "x" and without a dropped ending is kept as it is |
| DecklistTxt.EuroEffectLine | generateDecklistTxt.js:253-271 | a note line such as "+2 effects" or "x3 Effect" is removed entirely |
| DecklistTxt.EuroTotalTail | generateDecklistTxt.js:253-271 | a "(… total)" count at the end of a card line is removed with everything from its "(" |
| DecklistTxt.MarksLen | generateDecklistTxt.js:352-356 | the plural "s" and colons after a heading are no longer than the tail |
| DecklistTxt.TrailingRun | generateDecklistTxt.js:388 | the run of a character that ends a string, and no longer |
| DecklistTxt.CapNewlines | generateDecklistTxt.js:232 | no three "\n" are left in a row, and the text keeps its first character |
| DecklistTxt.SingleSpaced | generateDecklistTxt.js:231-232 | the normalised lines, joined and respaced, keep no three "\n" in a row |
| DecklistTxt.DisambiguatedSingleSpaced | generateDecklistTxt.js:226-242 | the body after the same-title rewrites still keeps no three "\n" in a row |
| DecklistTxt.DisambiguationsNoTripleNewline | generateDecklistTxt.js:690-715 | the same-title rewrites add no run of three "\n": each match stays within one line and each replacement is a non-empty text without "\n" |
| DecklistTxt.DisambiguationsUntouched | generateDecklistTxt.js:690-715 | a body with no "(" is left as it is by the same-title rewrites |
| DecklistTxt.DisambiguateSensePremiere | generateDecklistTxt.js:690-715 | "Sense (Premiere)" becomes "Sense", and no later rewrite touches it |
| DecklistTxt.DisambiguateSenseCoruscant | generateDecklistTxt.js:690-715 | "Sense (Coruscant)" becomes "Sense (Episode I)": no earlier rewrite matches it and no later one touches the result |
| DecklistTxt.NormalizeHeadersClean | generateDecklistTxt.js:289-309 | the document after the heading fixes is trimmed and holds no curly or backward apostrophe |
| DecklistTxt.NormalizeHeadersDevices | generateDecklistTxt.js:289-309 | "DEVICESL" becomes "DEVICES": the earlier fixes do not match it and the last one does |
| DecklistTxt.NoDoubleSpaceSlice | generateDecklistTxt.js:285 | a piece of a text without double spaces has none either |
| DecklistTxt.NormalizeTextBlank | generateDecklistTxt.js:334-345 | a trimmed line normalises to "" exactly when it is superfluous: blank, a side marker, a label, a date or a bare number |
| DecklistTxt.NormalizeTextHeading | generateDecklistTxt.js:350-360 | a heading line becomes "\n" and its plural heading, or "\nSTARTING", and no other line starts with "\n" |
| DecklistTxt.NormalizeTextObjective | generateDecklistTxt.js:398-427 | a line that abbreviates an objective becomes "1x" and the first such objective title, of the same virtual status, with "(V)" kept exactly when the line had it |
| DecklistTxt.NormalizeTextCard | generateDecklistTxt.js:363-439 | any other line becomes its quantity in digits, "x " and its normalised title, and the digits read back as the quantity |
| DecklistTxt.NormalizeTextCardForm | generateDecklistTxt.js:363-439 | the card line is exactly the quantity, "x " and the normalised title |
| DecklistTxt.QtyLine | generateDecklistTxt.js:436 | a quantity written before "x " and a title reads back as that quantity and that title |
| DecklistTxt.ParseQtyLeading | generateDecklistTxt.js:363-379 | "Nx Title" and "NNx Title" give that number as quantity and the trimmed rest as title |
| DecklistTxt.ParseQtyTrailing | generateDecklistTxt.js:363-379 | "Title xN" gives that number as quantity when nothing leads the line |
| DecklistTxt.ParseQtyLeadingX | generateDecklistTxt.js:364-373 | "xN Title" and "xNN Title" give that number as quantity and the trimmed rest as title when the line does not end in a digit |
| DecklistTxt.TrailingQtyOf | generateDecklistTxt.js:370-373 | a trailing count is found and read digit by digit |
| DecklistTxt.ParseQtyDefault | generateDecklistTxt.js:363-379 | a line without digits has quantity 1 and is its own title |
| DecklistTxt.IsHeadingByTail | generateDecklistTxt.js:350-356 | whether a line spells a heading depends only on what follows the heading |
| DecklistTxt.MarksLenSuffix | generateDecklistTxt.js:352-356 | the marks after a heading are read up to the first character that is neither "s" nor ":" |
| DecklistTxt.HeadingTailBare | generateDecklistTxt.js:352-356 | "Character", "Characters", "Character:" and "Characters::" all spell the heading |
| DecklistTxt.HeadingTailCounted | generateDecklistTxt.js:352-356 | a heading followed by a bracketed count of one or two digits still spells the heading |
| DecklistTxt.HeadingTailRejectsWord | generateDecklistTxt.js:352-356 | a heading that a word goes on after is not a heading line |
| DecklistTxt.PhraseBangRestores | generateDecklistTxt.js:185-188 | a "No Money, No Parts, No Deal" that ends a word or the text gets its "!" back |
| DecklistTxt.PhraseBangRest | generateDecklistTxt.js:185-188 | the restored phrase is followed by its "!" and the rest of the text |
| DecklistTxt.PhraseBangAbsent | generateDecklistTxt.js:185-188 | text in which the phrase does not occur, in any case, is left as it is |
| DecklistTxt.TagCloseShift | generateDecklistTxt.js:311-322 | a character in front shifts the search for ">" by one |
| DecklistTxt.AssembleHeader | generateDecklistTxt.js:250 | the first four lines of the plain text are the title, the date, the url and a blank line |
| DecklistTxt.SplitHeader | generateDecklistTxt.js:250 | three lines and an empty one open the split text |
| DecklistTxt.SplitFirstTail | generateDecklistTxt.js:250 | splitting a text that starts with a line and a separator gives that line, then the split rest |
| DecklistJson.CleanCardTitle | generateArchetypes.js:1070-1076 | the cleaning lines 343-347 of generateDecklistJson.js mean (see Findings): a cleaned title holds no `<`, `>` or `•` and no " /" |
| DecklistJson.CleanCardTitleIdempotent | generateArchetypes.js:1070-1076 | cleaning a title with the meant cleaning twice changes nothing |
| DecklistJson.AsWrittenKeepsBullet | generateDecklistJson.js:345 | the character class as written keeps a leading "•" |
| DecklistJson.BulletedTitleMissedAsWritten | generateDecklistJson.js:345 | as written, a bulleted catalog title never compares equal to a bullet-free query; the corrected cleaning drops the bullet |
| DecklistJson.BulletedCardUnmatchedAsWritten | generateDecklistJson.js:225-234 | with the cleaning as written, a query without "•" never matches a catalog card whose title starts with "•" |
| DecklistJson.SubstituteTitleUntouched | generateDecklistJson.js:349-366 | a title with no "(" and no "&" is left alone |
| DecklistJson.SubstituteMacroscan | generateDecklistJson.js:349-366 | the substitutions run in sequence: "Macroscan (V)" becomes "Death Star Reactor Terminal" |
| DecklistJson.SubstituteTitleTail | generateDecklistJson.js:355-365 | the substitutions after the third leave "Death Star Reactor Terminal" alone |
| DecklistJson.Optional | generateDecklistJson.js:194-199 | an optional character is taken exactly when it is there |
| DecklistJson.QtyMatchAt | generateDecklistJson.js:194-199 | a quantity match at an index starts within two characters of it with one or two digits, and exists whenever a digit is there |
| DecklistJson.QtyMatchFrom | generateDecklistJson.js:194-199 | a match found starts at or after the search start and is the match at that index |
| DecklistJson.QtyMatchFromLeftmost | generateDecklistJson.js:194-199 | the match found is the leftmost one: no match starts between the search start and it |
| DecklistJson.QtyMatchFromNone | generateDecklistJson.js:194-199 | no match is found exactly when none starts anywhere from the search start on |
| DecklistJson.QtyMatchFirstDigit | generateDecklistJson.js:194-199 | the first match of a line takes its digits from the line's first digit |
| DecklistJson.LineQuantityDefault | generateDecklistJson.js:194-199 | a line without a digit has quantity 1 and its trimmed self as title |
| DecklistJson.NoDigitNoMatch | generateDecklistJson.js:194-199 | without a digit in the line, no quantity match begins anywhere |
| DecklistJson.LineQuantityFirstDigit | generateDecklistJson.js:194-199 | the quantity is the first one or two digits of the line, and at most 99 |
| DecklistJson.TotalAppend | generateDecklistJson.js:269 | appending a card adds its quantity to the total |
| DecklistJson.TotalRaise | generateDecklistJson.js:269 | raising one entry's quantity raises the total by as much |
| DecklistJson.InsertedSpec | generateDecklistJson.js:332-341 | inserting adds the card's quantity to the total and keeps titles unique; a new title is appended, and otherwise the first entry of that title grows while nothing else changes |
| DecklistJson.InsertAllSpec | generateDecklistJson.js:332-341 | inserting many cards keeps titles unique and adds all their quantities to the total |
| DecklistJson.ResolveSpec | generateDecklistJson.js:225-234 | with the cleaning passed in, a resolved entry has the line's quantity, the cleaned title and the id of the first catalog card that matches; unresolved means no card matches |
| DecklistJson.ReadLineSkips | generateDecklistJson.js:183-188 | a line is skipped exactly when it is blank or a heading; every other line is resolved |
| DecklistJson.RoundInSpec | generateDecklistJson.js:251-252 | the round found is a round name that occurs in the title, and none is found exactly when no name occurs |
| DecklistJson.ContainsFindsAlt | generateDecklistJson.js:251-252 | a round name in the title gives the alternation a match |
| DecklistJson.FormatOfRound | generateDecklistJson.js:255-256 | for a round name the format is "Swiss" exactly for "Day 1", and "Match Play" otherwise |
| DecklistJson.LoweredAt | generateDecklistJson.js:368-380 | the lowered text holds the lowered word where the text held the word |
| DecklistJson.KnowledgeAndDefense | generateDecklistJson.js:370-372 | "knowledge and defense" matches the Knowledge/Defense pattern |
| DecklistJson.InferSideKnowledge | generateDecklistJson.js:368-380 | a plaintext naming Knowledge And Defense makes the side Dark, whatever the title says |
| DecklistJson.AngerFearAggression | generateDecklistJson.js:373-375 | "anger, fear, aggression" matches the Anger/Fear pattern |
| DecklistJson.InferSideAnger | generateDecklistJson.js:368-380 | without Knowledge/Defense, a plaintext naming Anger, Fear, Aggression makes the side Light |
| DecklistJson.InferSideFromTitle | generateDecklistJson.js:368-380 | with neither card in the plaintext, " DS " and then " LS " in the title decide, and otherwise there is no side |
| DecklistJson.InferSide | generateDecklistJson.js:368-380 | Knowledge/Defense in the plaintext makes the side Dark; there is no side exactly when neither pattern is in the plaintext and the title holds neither " DS " nor " LS " |
| DecklistJson.Decklist.constructor | generateDecklistJson.js:129 | a new decklist has the file's slug and nothing else set |
| DecklistJson.Decklist.InsertCard | generateDecklistJson.js:332-341 | the card list becomes the inserted list and no other field changes |
| DecklistJson.Decklist.ReadCards | generateDecklistJson.js:182-249 | every entry of the card lines is inserted, in order, and no other field changes |
| DecklistJson.Decklist.ReadHeader | generateDecklistJson.js:142-144 | title, date and url are the first three lines, the plaintext the lines from the fifth on |
| DecklistJson.Decklist.SetRound | generateDecklistJson.js:251-257 | the round is the first of the given names in the title (the script passes its round list) and the format follows from it; without one both are left as they were |
| DecklistJson.Decklist.SetCount | generateDecklistJson.js:269 | the count is the sum of the quantities |
| DecklistJson.ParseDecklist | generateDecklistJson.js:128-285 | with the cleaning passed in (`CleanCardTitleAsWritten` for the script as written), the JSON decklist has unique titles, a count equal to the sum of quantities, and a round that is a round name in the title with "Swiss" exactly for Day 1 |
| Download.CanonicalChars | downloadDecklists.js:43-53 | a canonical title holds no dropped mark and no upper-case letter, is trimmed, and has no " /" |
| Download.ComparableTitleChars | downloadDecklists.js:16-56 | `comparableTitle` output is lower case, trimmed, free of dropped marks and of any back face |
| Download.CanonicalKeepsOut | downloadDecklists.js:43-53 | a dropped character stays out through the later steps |
| Download.CollapseBackFace | downloadDecklists.js:47 | a virtual two-faced title keeps its front and its "(V)" |
| Download.CutBackFace | downloadDecklists.js:48 | any other back face is cut from " /" to the end of its line |
| Download.NormalizeUntouched | downloadDecklists.js:43-48 | a plain title passes the normalisation unchanged |
| Download.CanonicalUntouched | downloadDecklists.js:43-53 | a plain, trimmed title is only lower-cased |
| Download.EntryFixesUntouched | downloadDecklists.js:19-32 | a title no correction names is left alone |
| Download.RenamesUntouched | downloadDecklists.js:35-40 | the renames leave a title with no "(" alone |
| Download.ComparableArtoo | downloadDecklists.js:24 | "Artoo-Deetoo" is corrected before it is compared, and compares as "artoo-detoo" |
| Download.ComparableMacroscan | downloadDecklists.js:36-37 | "Macroscan (V)" is renamed twice and compares as "death star reactor terminal" |
| Download.DeathStarRenamed | downloadDecklists.js:37 | the virtual Death Star Reactor Terminal loses its "(V)" |
| Download.DeckSideSpec | downloadDecklists.js:224-229 | a decklist is Dark exactly when its title holds " DS ", "SSAv" or "Hunt Down" |
| Download.LineMatchSpec | downloadDecklists.js:219-223 | a card line opens with one or two digits and an "x", giving the digits and the rest as groups, and other lines do not match |
| Download.LineMatchWith | downloadDecklists.js:219-223 | the groups when a given number of digits and an "x" open the line |
| Download.LineMatchDigits | downloadDecklists.js:219-223 | the first group is one or two digits |
| Download.FoundEntrySpec | downloadDecklists.js:233-246 | the entry for a matched line carries the id of the first card that fits, and exists exactly when one fits |
| Download.LineEntrySpec | downloadDecklists.js:219-246 | a line gives an entry exactly when it matches and a card fits its title and side |
| Download.QtyTrimmed | downloadDecklists.js:241 | the quantity of a card line is its digits, untouched by the trim |
| Download.EntriesConcat | downloadDecklists.js:217-259 | the entries of two runs of lines follow each other |
| Download.EntriesFromLines | downloadDecklists.js:217-259 | each entry comes from a line of its own, in order, at most one per line |
| Download.EntryQty | downloadDecklists.js:241 | the quantity of every entry is one or two digits |
| Download.EntryCard | downloadDecklists.js:233-246 | every entry names a card of the data that fits its line |
| Download.EntriesStep | downloadDecklists.js:217-259 | one more line adds what that line contributes |
| Download.PushEntries | downloadDecklists.js:217-259 | the line loop pushes exactly the specified entries |
| Download.ReadCardLines | downloadDecklists.js:216-259 | the content's lines read on the deck's side give the specified entries |
| Download.ReadCardLinesSide | downloadDecklists.js:216-259 | every entry of a deck is a card of the deck's side |
| Download.SaveGempContent | downloadDecklists.js:327-333 | the loop builds the header, each entry once per copy in list order, then `</deck>` |
| Download.GempContentUnits | downloadDecklists.js:327-333 | the card elements are as many as the copies of all entries, and two decks' elements follow each other |
| Download.EntryCopies | downloadDecklists.js:328-332 | an entry read from a line is written as many times as its digits say, at most 99 |
| Gemp.ShortRoundWords | generateDecklistGemp.js:115-126 | the round abbreviations never lengthen the round |
| Gemp.ShortRoundName | generateDecklistGemp.js:115-126 | a short round name exists exactly for a truthy round and is no longer than it |
| Gemp.ShortRoundDay | generateDecklistGemp.js:115-126 | "Day 1" is "D1" |
| Gemp.ShortRoundTop | generateDecklistGemp.js:115-126 | "Top 8" is "T8" |
| Gemp.ShortRoundSemiFinals | generateDecklistGemp.js:115-126 | "Semi-Finals" is "SF": the later rule for "Finals" finds nothing left |
| Gemp.CutBeforeLast | generateDecklistGemp.js:131 | on one line, `/.* \(/` removes everything up to the last " (" |
| Gemp.CutAfterFirst | generateDecklistGemp.js:132 | `/\) .*/` cuts from the first ") " to the end of the line |
| Gemp.GempPlayerNameNickname | generateDecklistGemp.js:128-132 | a name with a parenthesised nickname is saved as the nickname |
| Gemp.GempPlayerNameRich | generateDecklistGemp.js:128-132 | "Lawrence (Rich) Craft" is saved as "Rich" |
| Gemp.NicknameAsWrittenUndefined | generateDecklistGemp.js:134-135 | as written, every nickname begins with "undefined" |
| Gemp.FirstFitting | generateDecklistGemp.js:85-97 | the first truthy candidate within the limit, and none when no candidate fits |
| Gemp.Initial | generateDecklistGemp.js:95-97 | the initial of a non-empty first word is its first letter |
| Gemp.SliceTo | generateDecklistGemp.js:95-97 | `slice(0, k)` gives a prefix of the string, no longer than k when k is not negative |
| Gemp.ShortPlayerName | generateDecklistGemp.js:78-98 | as meant, a name that fits within the 40-letter limit is kept unchanged |
| Gemp.ShortPlayerNameFits | generateDecklistGemp.js:78-98 | as meant, the short name always fits in the letters left when at least three are left |
| Gemp.ShortPlayerNameAsWrittenOverflows | generateDecklistGemp.js:87-97 | as written, a two-word name whose last word exceeds the budget yields a short name longer than the budget |
| Gemp.FitsOnlyLast | generateDecklistGemp.js:85-97 | when only the last candidate fits, it is picked |
| Gemp.FitsNone | generateDecklistGemp.js:85-97 | when no candidate fits, the fallback is taken |
| Gemp.FitsNick | generateDecklistGemp.js:85-97 | when the nickname fits, it is picked |
| Gemp.ShortPlayerNameTwoWordsCut | generateDecklistGemp.js:85-97 | as meant, a two-word name none of whose candidates fits is cut to its initial and the start of its last word |
| Gemp.ShortPlayerNameInitials | generateDecklistGemp.js:85-97 | as meant, at 30 letters first and last words of 11 and 12 letters are cut to their initials |
| Gemp.ShortPlayerNameCut | generateDecklistGemp.js:85-97 | as meant, "Bartholomew Vanderhoeven" at 30 letters is cut to "B V" |
| Gemp.ShortPlayerNameAsWrittenNick | generateDecklistGemp.js:85-97 | as written, a fitting nickname is the short name |
| Gemp.ShortPlayerNameNick | generateDecklistGemp.js:85-97 | as meant, a fitting nickname is the short name |
| Gemp.MhtNickname | generateDecklistGemp.js:134-135 | as meant, Matthew Harrison-Trainor's nickname is "MHT" |
| Gemp.MhtAsWritten | generateDecklistGemp.js:134-135 | as written, his short name is "undefinedMHT" when 17 to 22 letters come before it |
| Gemp.MhtCorrected | generateDecklistGemp.js:134-135 | as meant, his short name is "MHT" whenever 17 to 31 letters come before it |
| Gemp.TitleForGemp | generateDecklistGemp.js:137-138 | a Gemp title exists exactly for a truthy title |
| Gemp.TitleForGempChars | generateDecklistGemp.js:137-138 | a Gemp title has no "•", "<" or ">", no back face and no surrounding spaces |
| Gemp.TitleForGempIdempotent | generateDecklistGemp.js:137-138 | applying `titleForGemp` to a non-empty Gemp title changes nothing |
| Gemp.ReplaceAllAmp | generateDecklistGemp.js:140 | replacing every "&" by "&amp;" is the character-by-character escape |
| Gemp.UnescapeEscape | generateDecklistGemp.js:140 | escaping loses nothing: unescaping gives the text back |
| Gemp.EscapeAmpTrimmed | generateDecklistGemp.js:140 | escaping a trimmed text keeps it trimmed |
| Gemp.GempCleanEscapes | generateDecklistGemp.js:140 | `gempClean` escapes every "&" and then trims |
| Gemp.GempCleanRoundTrip | generateDecklistGemp.js:140 | for a trimmed title `gempClean` only escapes, and unescaping gives the title back |
| Gemp.OutsideDeckCardsSpec | generateDecklistGemp.js:22-39 | the outside-deck cards of a side are exactly its Defensive Shields and its listed cards, in catalog order, and none for a missing side |
| Gemp.Repeat | generateDecklistGemp.js:58-62 | n copies of an element |
| Gemp.UnitsCount | generateDecklistGemp.js:57-63 | there are as many units as the counts add up to |
| Gemp.UnitsConcat | generateDecklistGemp.js:57-63 | the units keep list order across a concatenation |
| Gemp.UnitsOfOne | generateDecklistGemp.js:58-62 | an entry shows up its count of times in a row |
| Gemp.CardUnitsCount | generateDecklistGemp.js:57-63 | the deck has one card element per unit of quantity |
| Gemp.TotalIsSum | generateDecklistGemp.js:57-63 | the sum of the quantities is the decklist's total |
| Gemp.RenderConcat | generateDecklistGemp.js:57-69 | the elements of a concatenation are the concatenated elements |
| Gemp.RenderSnoc | generateDecklistGemp.js:57-69 | writing one more element appends it |
| Gemp.AppendCopies | generateDecklistGemp.js:58-62 | the inner loop appends the element as many times as the quantity |
| Gemp.AppendUnits | generateDecklistGemp.js:57-63 | the card loop appends every unit's element in order |
| Gemp.AppendAll | generateDecklistGemp.js:65-69 | the outside-deck loop appends each card's element in order |
| Gemp.BuildXml | generateDecklistGemp.js:50-71 | the XML is the head, the card units, the outside-deck cards and the closing tag |
| Gemp.OrElse | generateDecklistGemp.js:73-102 | `a \|\| b` is a when truthy and b otherwise |
| Gemp.GempFilename | generateDecklistGemp.js:73-102 | whichever short-name function is passed (`ShortPlayerNameAsWritten` for the script as written), a file name exists exactly when the decklist has a short archetype name and a player |
| Gemp.FilenameStemLength | generateDecklistGemp.js:73-102 | the stem is no longer than the letters counted before the name, less one, plus the player's name |
| Gemp.GempFilenameFits | generateDecklistGemp.js:73-102 | with the corrected short name, a Gemp file name is shorter than 40 characters whenever the name fits or three letters are left for it |
| Gemp.ExportDecklist | generateDecklistGemp.js:47-109 | one decklist's export, with the short-name function passed in, gives its file name and XML, and fails when naming throws |
| Gemp.ExportedKeys | generateDecklistGemp.js:42-110 | a file is written exactly for the names of decklists that do not fail |
| Gemp.ExportedLast | generateDecklistGemp.js:42-110 | each written file holds the XML of the last decklist of its name |
| Gemp.ExportedStep | generateDecklistGemp.js:42-110 | one more decklist writes its file over what the earlier ones left |
| Gemp.ExportAll | generateDecklistGemp.js:42-110 | every decklist is exported in turn into the directory, with the short-name function passed in |
| Players.DropSideTag | generatePlayers.js:181 | dropping the side tag leaves a prefix of the name |
| Players.Tidy | generatePlayers.js:177-183 | the tidied name is trimmed |
| Players.CapsNameSpec | generatePlayers.js:174-176 | a name that is not all capitals is kept, and a changed name was all capitals and keeps its length |
| Players.TidyPlain | generatePlayers.js:177-183 | a trimmed two-word name in ordinary case with no side tag is kept |
| Players.TidyDropsSideTag | generatePlayers.js:181 | a trailing " DS" or " LS" tag is removed |
| Players.TidyDropsDash | generatePlayers.js:177-183 | a leading en dash is removed |
| Players.AliasesAtoCTrimmed | generatePlayers.js:186-194 | the A-to-C aliases keep a trimmed name trimmed |
| Players.AliasesAtoCUntouched | generatePlayers.js:186-194 | a name none of the A-to-C aliases names is kept |
| Players.AliasesFtoJeTrimmed | generatePlayers.js:195-200 | the F-to-Je aliases keep a trimmed name trimmed |
| Players.AliasesFtoJeUntouched | generatePlayers.js:195-200 | a name none of the F-to-Je aliases names is kept |
| Players.AliasesJoToJuTrimmed | generatePlayers.js:201-206 | the Jo-to-Ju aliases keep a trimmed name trimmed |
| Players.AliasesJoToJuUntouched | generatePlayers.js:201-206 | a name none of the Jo-to-Ju aliases names is kept |
| Players.AliasesKtoMaTrimmed | generatePlayers.js:207-212 | the K-to-Ma aliases keep a trimmed name trimmed |
| Players.AliasesKtoMaUntouched | generatePlayers.js:207-212 | a name none of the K-to-Ma aliases names is kept |
| Players.AliasesMiToNTrimmed | generatePlayers.js:213-217 | the Mi-to-N aliases keep a trimmed name trimmed |
| Players.AliasesMiToNUntouched | generatePlayers.js:213-217 | a name none of the Mi-to-N aliases names is kept |
| Players.AliasesPtoQTrimmed | generatePlayers.js:218-221 | the P-to-Q aliases keep a trimmed name trimmed |
| Players.AliasesPtoQUntouched | generatePlayers.js:218-221 | a name none of the P-to-Q aliases names is kept |
| Players.AliasesStoStTrimmed | generatePlayers.js:222-228 | the S-to-St aliases keep a trimmed name trimmed |
| Players.AliasesStoStUntouched | generatePlayers.js:222-228 | a name none of the S-to-St aliases names is kept |
| Players.AliasesTTrimmed | generatePlayers.js:229-234 | the T aliases keep a trimmed name trimmed |
| Players.AliasesTUntouched | generatePlayers.js:229-234 | a name none of the T aliases names is kept |
| Players.AliasesVtoZTrimmed | generatePlayers.js:235-237 | the V-to-Z aliases keep a trimmed name trimmed |
| Players.AliasesVtoZUntouched | generatePlayers.js:235-237 | a name none of the V-to-Z aliases names is kept |
| Players.AliasesFromKUntouched | generatePlayers.js:207-237 | a name none of the aliases from K on names is kept |
| Players.CleanPlayerNameTrimmed | generatePlayers.js:173-240 | a cleaned player name is trimmed |
| Players.JoToJuJonas | generatePlayers.js:202 | as meant, "Jonas Hagen" becomes "Jonas Hagen Nørregaard" |
| Players.JoToJuJonasAsWritten | generatePlayers.js:202 | as written, "Jonas Hagen" becomes the full name, but the full name grows a second " Nørregaard" |
| Players.CleanAndyDavies | generatePlayers.js:186 | "Andy Davies" cleans to "Andrew Davies", and "Andrew Davies" is a fixed point |
| Players.CleanJonas | generatePlayers.js:173-240 | as meant, "Jonas Hagen" cleans to the full name, and the full name is a fixed point |
| Players.CleanJonasAsWritten | generatePlayers.js:202 | as written, the full name grows a second " Nørregaard", so cleaning is not idempotent |
| PlayerTitles.DropRoundSpec | generatePlayers.js:243-247 | the leftmost round name, in any case, is cut out of the title, and a title without one is left alone |
| PlayerTitles.MatchableUntouched | generatePlayers.js:242-268 | a title no rewrite touches is left as it is |
| PlayerTitles.MatchableOrder | generatePlayers.js:242-268 | the rewrites run in the order listed, each seeing what the earlier ones made |
| PlayerTitles.SideAbbr | generatePlayers.js:277 | "DS" exactly for a dark archetype, "LS" for any other, a missing side included |
| PlayerTitles.JoinEmpty | generatePlayers.js:278-296 | the alternation is empty exactly when there are no names or a single empty one |
| PlayerTitles.TagArchetypeSpec | generatePlayers.js:278-296 | the side tag goes in right before the leftmost archetype name in the title, names read as literal text, and a title naming none is left alone |
| PlayerTitles.MatchIsFirstOccurrence | generatePlayers.js:278-296 | the text of the leftmost match occurs nowhere earlier |
| PlayerTitles.QualifySpec | generatePlayers.js:298-313 | the qualifier and a space go in right after the tag of the first occurrence, and without one nothing changes |
| PlayerTitles.FixSpecificSpec | generatePlayers.js:270-316 | a title already tagged DS or LS gets only the side qualifiers; any other title is tagged at its archetype, names read as literal text, and then qualified |
| PlayerRegistry.WithUrlsSpec | generatePlayers.js:74-78 | each url maps to the archetype, and every other key keeps its entry |
| PlayerRegistry.LookupLastWins | generatePlayers.js:74-78 | a url is in the lookup table exactly when some archetype lists it, and maps to the last archetype listing it |
| PlayerRegistry.BuildLookupTable | generatePlayers.js:74-78 | the nested loop builds the specified lookup table |
| PlayerRegistry.AllNames | generatePlayers.js:278-280 | two names per archetype plus all aliases, and a text is among them exactly when it is an alias, the name or the short name (or "") of some archetype |
| PlayerRegistry.AllNamesBlocks | generatePlayers.js:278-280 | archetype k contributes, at its offset and in this order, its aliases, its name and its short name or "" |
| PlayerRegistry.Holder | generatePlayers.js:107-109 | the first player whose cleaned name equals the name, and none when nobody's does |
| PlayerRegistry.RegisteredSpec | generatePlayers.js:107-122 | a name nobody holds creates a player at the end; otherwise the first holder gains the url and the raw alias, and nobody else changes |
| PlayerRegistry.TotalUrlsAppend | generatePlayers.js:107-122 | adding a player adds its urls to the total |
| PlayerRegistry.TotalUrlsUpdate | generatePlayers.js:107-122 | replacing a player changes the total by the difference of their urls |
| PlayerRegistry.RegisteredUrls | generatePlayers.js:107-122 | every registration adds exactly one url, whichever player gets it |
| PlayerRegistry.RegisteredWellFormed | generatePlayers.js:107-122 | every player holds a url and its raw names without repeats |
| PlayerRegistry.RegisteredCanonical | generatePlayers.js:107-122 | when cleaning leaves cleaned names alone, registering keeps every name cleaned |
| PlayerRegistry.RegisterNew | generatePlayers.js:115-121 | a name nobody holds makes a new player at the end |
| PlayerRegistry.RegisterHit | generatePlayers.js:110-114 | a name held by player k grows that player |
| PlayerRegistry.RegisterTwice | generatePlayers.js:107-122 | a new raw name registered twice makes one player with both urls when cleaning is idempotent on the cleaned name, and otherwise two players and a registry that is no longer canonical |
| PlayerRegistry.RegisterTwiceMerges | generatePlayers.js:107-122 | with idempotent cleaning, two decklists of one player make one player with both urls |
| PlayerRegistry.RegisterTwiceSplits | generatePlayers.js:107-122 | without it, they make two players of the same raw name |
| PlayerRegistry.JonasMerged | generatePlayers.js:108 | with the corrected cleaning, two decklists of Jonas Hagen make one player |
| PlayerRegistry.JonasSplit | generatePlayers.js:108 | as written, they make two players |
| PlayerRegistry.PlayerNameFromMatches | generatePlayers.js:339-353 | a name exists exactly when the fifth group matched, and it is that group trimmed |
| PlayerRegistry.ReadDecklistSpec | generatePlayers.js:87-143 | a file read successfully has a third line with an archetype; a matched file gives its url and player, a deferred one its url and matchable title, and reading fails when the url has no archetype or no player name is matched |
| PlayerRegistry.FirstPassSucceeds | generatePlayers.js:86-144 | the first pass succeeds exactly when every file can be read |
| PlayerRegistry.FirstPassCounts | generatePlayers.js:86-144 | every file read adds one url to the players or one deferred decklist, and the players stay well formed |
| PlayerRegistry.FirstPassCanonical | generatePlayers.js:86-144 | with an idempotent cleaner, the first pass keeps every name cleaned |
| PlayerRegistry.Claimant | generatePlayers.js:149-161 | the first player whose name or alias the title contains, and none when nobody's |
| PlayerRegistry.SameClaimant | generatePlayers.js:149-161 | claims look only at names and aliases, so urls do not change the claimant |
| PlayerRegistry.AssignAllSpec | generatePlayers.js:149-161 | each player gains, in order, exactly the urls of the deferred decklists it claims |
| PlayerRegistry.AssignedEntry | generatePlayers.js:149-161 | a player gains a deferred url exactly when it is that decklist's claimant |
| PlayerRegistry.AssignAllCounts | generatePlayers.js:149-161 | every deferred decklist is either assigned or reported unclaimed, and names and aliases are kept |
| PlayerRegistry.AssignAllCanonical | generatePlayers.js:149-161 | the second pass leaves names as they were |
| PlayerRegistry.PlayerRegistry.constructor | generatePlayers.js:62-63 | the registry starts with no players and no deferred decklists |
| PlayerRegistry.PlayerRegistry.Record | generatePlayers.js:107-124 | registering a decklist changes the players as `Registered` says |
| PlayerRegistry.PlayerRegistry.FirstPass | generatePlayers.js:87-139 | the first loop reports whether the first pass succeeds and, if it does, leaves its players and deferred decklists |
| PlayerRegistry.PlayerRegistry.SecondPass | generatePlayers.js:145-161 | the second loop hands each deferred decklist to its claimant |
| PlayerRegistry.BothPassesAccount | generatePlayers.js:62-161 | both passes succeed exactly when every file can be read, and then every file's url ends with a player or is reported unclaimed |
| PlayerRegistry.GeneratePlayers | generatePlayers.js:62-161 | with the name cleaning passed in (`CleanPlayerNameAsWritten` for the script as written), the script's loops give the specified players |

## Left out

- The file system, JSON parsing, `console` logging and the network are not modelled. Files are strings and the card catalogs are parameters.
- The jsdom page loading, fetching and HTML scraping of `downloadDecklists.js` are not modelled: its `main` at lines 85-322, apart from the card-line loop at lines 216-259.
- The metadata comparison at downloadDecklists.js:263-271, the sanitised content at 202-211, the txt content at 213 and the Gemp file name at 335 are not modelled.
- The per-url patches at generateDecklistTxt.js:191-222 and 235-238 are not modelled. They only fix individual scraped pages, as does the doubled-deck cut at 235-238.
- `rawArchetypeNameFromDecklistTitle` (generateArchetypes.js:1032-1052) is a function parameter because it builds its regular expression at run time from data. So is the player regex (generatePlayers.js:318-337).
- The `localeCompare` sort of players (generatePlayers.js:166) is not modelled. `GeneratePlayers` returns the players before sorting.
- Case mapping is ASCII only; non-ASCII letters keep their case.
- `ONLY_RUN_MATCHER` debugging and `generateCardFacts.js` are not part of this model.
- The naive side at generateArchetypes.js:100-102 is not modelled: it is computed and never read.
- The tournament, archetype and player lookup tables of generateDecklistJson.js:146-180 are not modelled. `ParseDecklist` takes the decklist's side as a parameter.
- `inferSide` (generateDecklistJson.js:368-380) is modelled but never called by the script's `main`.
- Registry.Registry.SeedArchetypes: returns how many archetypes it created rather than the created objects themselves.
- Object identity and `structuredClone` are not modelled. Archetypes and players are values, and updating one updates the registry's copy.
- ParseDecklist: its contract holds for any title cleaning. That bulleted cards never resolve with the cleaning as written is stated only per card, by `BulletedCardUnmatchedAsWritten`, not as a count of the cards the decklist loses.
- GempFilename: its length bound `GempFilenameFits` is proved only for the short name as meant. With the short name as written, `ShortPlayerNameAsWrittenOverflows` shows the bound fails.
- ExportAll: its contract holds for any short-name function. The file names the script as written produces are not characterised beyond `GempFilename`.
- GeneratePlayers: its contract holds for any name cleaning. The split of one player into two with the cleaning as written is shown for the registry step, by `JonasSplit`, not for a whole run.
- TagArchetype: matches the archetype names as literal text. generatePlayers.js:282-288 escapes only "(", ")", "..." and "?" before building the RegExp, so a name holding `.`, `+`, `*`, `[`, `]`, `{`, `}`, `|`, `^`, `$` or `\` would be matched as a pattern there; the model assumes the names hold none of these.
- TagArchetypeSpec: states the tagging for names matched as literal text; names holding other regex metacharacters are not covered, as for `TagArchetype`.
- FixSpecificSpec: its archetype tag inherits the literal matching of `TagArchetype`; names holding other regex metacharacters are not covered.
- GlobalFixesArtoo: does not prove that the global fixes after "Artoo-Detoo" leave that spelling alone; it states that they receive the corrected text.

## Findings

| source | as written | input that shows it | evidently intended | confidence | as-written member | corrected member |
|---|---|---|---|---|---|---|
| generateDecklistJson.js:345 | the character class `[<>â€¢]` removes the UTF-8 mojibake characters "â", "€" and "¢", not "•" | a catalog title starting with "•" never equals a query without it | remove "<", ">" and "•" as the other scripts do | high, not executed | DecklistJson.BulletedTitleMissedAsWritten | DecklistJson.CleanCardTitleIdempotent |
| generateDecklistGemp.js:135 | `.replace("")` with no replacement argument inserts "undefined" at the front of every nickname | "Matthew Harrison-Trainor" with 17 to 22 letters before the name gives "undefinedMHT" | the nickname itself, "MHT" | high, not executed | Gemp.MhtAsWritten | Gemp.MhtCorrected |
| generateDecklistGemp.js:87 | `lastName` is the array `split(" ").slice(-1)`, so its length is 1 and its slice is the whole word | a two-word name whose last word is longer than the letters left | the last word measured and cut as a string, so the short name fits | high, not executed | Gemp.ShortPlayerNameAsWrittenOverflows | Gemp.ShortPlayerNameFits |
| generatePlayers.js:202 | the unanchored pattern "Jonas Hagen" also matches inside the full name, adding a second " Nørregaard"; line 108 re-cleans stored names, so one player becomes two | two decklists by "Jonas Hagen" | the alias applies only to the short name, so cleaning is idempotent and the decklists share one player | high, not executed | PlayerRegistry.JonasSplit | PlayerRegistry.JonasMerged |
