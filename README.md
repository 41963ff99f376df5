# learndle deduction engine, modelled in Dafny

learndle is a guessing game. A hidden target creature is picked from a catalog, and the player
guesses creatures by name. For each guess, every move the guessed creature learns by
level-up is compared with the target:

- a move the target also learns by level-up gives a level hint: equal, higher or lower;
- any other move is classed by how the target learns it: egg, tutor, machine, or not at all.

The deduction engine folds the hints of all guesses so far into two things:

- a `[low, high]` interval per move, starting from `[0, 255]`;
- four de-duplicated sets of move names.

It then sorts the intervals by a key level. A move becomes known when its interval is a
single level, or when exactly one of the target's level-up entries falls inside it.

The project models this engine and the small cores around it:

- building and looking up catalog records;
- the edition tables;
- move-name formatting;
- sprite URLs.

The model has one module per concern:

| file | module | models |
|---|---|---|
| `wrappers.dfy` | `Wrappers` | `Option` (`null` results) |
| `sorting.dfy` | `Sorting` | the stable sort of `Array.prototype.sort`: a specification function and the in-place array method |
| `strutil.dfy` | `StrUtil` | `capitalize`, `convertMove`, ASCII case mapping |
| `versions.dfy` | `Versions` | the `Version` enum, `getVersionKey`, `getGeneration` |
| `sprites.dfy` | `Sprites` | `randomArray`, `getSpriteURL` |
| `pkmn_data.dfy` | `PkmnData` | learn records, the `Pokemon` constructor, `getPokemonNames`, `GameData` |
| `classify.dfy` | `Classify` | `MatchType`, `findLearnItem`, `getMatchType` |
| `hint_fold.dfy` | `HintFold` | `getAllHintInfo`, the `switch` of `getAllHints`, `getHintKeyLevel`, the sorted interval list |
| `hint_laws.dfy` | `HintLaws` | what the fold guarantees: exact coverage, disjointness, the interval invariant, narrowing, repeated guesses, the sorted list |
| `resolver.dfy` | `Resolver` | what `getKnownMoves` decides, and why it is sound |
| `game_state.dfy` | `Session` | the `GameState` class with its imperative methods |

## How the model follows the code

- `findLearnItem` returns the entry equal to the searched `[level, move]` pair, if the list
  has one. Otherwise it returns the LAST entry with the same move name; the loop overwrites
  `bestMatch` on every name match. The first same-name entry does not win; the last one does
  (`Classify.BestMatch`).
- The interval list is sorted by the key level alone: `low` when it is above zero, else
  `high`, with no tie-break. JavaScript's sort is stable, so entries with equal key levels
  keep the interval map's insertion order. A `Map` keeps a key's position when the key is set
  again. The model states this as stability of the sort (`HintLaws.SortedHintsCorrect`).
- There are four categorical sets: egg, tutor, machine, and no match.
- `getAllHints` visits a guess's entries grouped by status. It takes the statuses in the order
  they first appear in the guess's sorted level-up list, and each group's entries in list
  order. `HintFold.HintInfoOf` and `HintFold.FlatUpdates` model that order exactly.
- The hints are recomputed from the whole guess list on every call, and repeated guesses are
  kept. `HintFold.HintsOf` is a fold over all guesses.
- The interval invariant needs two facts about the target's data, which the code never
  checks: its level-up move names are distinct, and its levels lie in `[0, 255]`. They are
  stated as `HintLaws.Sane` and required only by the lemmas that need them. The operations
  themselves accept any data.

## Model

| member | source | states |
|---|---|---|
| Sorting.InsertionSort | src/pkmn_data.ts:41-42 | the result is a permutation of the input, sorted ascending by the key |
| Sorting.InsertionSortStable | src/pkmn_data.ts:42 | elements with equal keys keep their input order, as the stable engine sort does |
| Sorting.SortByKey | src/game_state.ts:135-137 | sorting an array in place leaves it equal to the stable sort of its old contents |
| StrUtil.Capitalize | src/strutil.ts:1-3 | `""` stays `""`; otherwise the length is kept, the first character is upper-cased (ASCII) and the rest is unchanged |
| StrUtil.ToLower | src/pkmn_data.ts:78 | `toLowerCase` on ASCII: the same length, each character lower-cased, only `A`..`Z` changing |
| StrUtil.CapitalizeToLower | src/strutil.ts:2 | lower-casing a capitalised name gives the lower-cased name, so a display name finds its record |
| StrUtil.CapitalizeIdempotent | src/strutil.ts:2 | capitalising twice is capitalising once |
| StrUtil.Split | src/strutil.ts:5 | splitting on `'-'` gives at least one part, and no part contains the separator |
| StrUtil.JoinSplit | src/strutil.ts:5 | splitting loses nothing: joining the parts with the separator gives back the input |
| StrUtil.DropLeadingEmpty | src/strutil.ts:8-10 | the parts from the first non-empty one on: the result is empty only when every part is empty, otherwise it starts with a non-empty part, and it holds only input parts |
| StrUtil.DropLeadingEmptySuffix | src/strutil.ts:8-10 | the result is the input with a run of leading empty parts removed: some `k` with every part before `k` empty and the result equal to the parts from `k` on |
| StrUtil.ConvertStep | src/strutil.ts:7-12 | one loop iteration appends a space only when the output is already non-empty, then the capitalised part |
| StrUtil.ConvertMove | src/strutil.ts:4-14 | the loop returns the capitalised non-leading-empty parts joined by single spaces |
| StrUtil.ConvertedMoveHasNoHyphen | src/strutil.ts:5-12 | the converted name never contains `'-'` |
| StrUtil.ConvertedMoveWithoutHyphen | src/strutil.ts:5-13 | a name without `'-'` converts to its capitalisation |
| StrUtil.ConvertedMoveLength | src/strutil.ts:6-12 | when the first part is non-empty, the output and the input have the same length |
| Versions.VersionKey | src/version.ts:34-95 | every version has a key, and the key decodes back to that version |
| Versions.VersionKeyInjective | src/version.ts:36-93 | distinct versions have distinct keys |
| Versions.Generation | src/version.ts:97-137 | `""` exactly for SM, USUM and LetsGo through IndigoDisk; otherwise a string starting with `"generation-"`; `"generation-i"` exactly for RB, Yellow, BlueJapan and RGJ; `"generation-ii"` exactly for GS and Crystal |
| Sprites.NatToString | src/sprites.ts:11 | the decimal text of a non-negative id: digits only, no leading zero, denoting the id |
| Sprites.IntToString | src/sprites.ts:19 | `+ idx` renders an id as JavaScript writes an integer: digits denoting the id with no leading zero, after a `-` exactly when it is negative |
| Sprites.JsRemainder | src/sprites.ts:17 | JavaScript's `%`, which truncates: the Euclidean remainder for non-negative ids, never positive for negative ones |
| Sprites.SpritePath | src/sprites.ts:10-19 | the unversioned path is the id alone; the versioned path is `versions/<gen>/<dir>/<id>` |
| Sprites.VersionDirectory | src/sprites.ts:13-18 | the edition directory is the version key, `gold` or `silver`; which one is stated by `Sprites.VersionDirectoryChoice` |
| Sprites.SpriteURL | src/sprites.ts:6-21 | every URL starts with the sprite prefix, ends with `.png`, and frames the sprite path |
| Sprites.VersionDirectoryChoice | src/sprites.ts:13-18 | the directory is the version key except for GS; for GS it is `gold` exactly when `randomArray[idx % 14]` is 1 (idx >= 0), and `silver` for negative ids |
| Sprites.GoldSilverPeriodic | src/sprites.ts:5-17 | the gold/silver choice repeats with period 14 |
| PkmnData.LearnsetOf | src/pkmn_data.ts:32-38 | the learnset has exactly the record keys other than `id`, `level-up` and `types`, each with its record list |
| PkmnData.PokemonOf | src/pkmn_data.ts:29-45 | the built creature keeps name, version, id and types; its level-up list is a permutation of the record's list, sorted by level |
| PkmnData.LevelupStable | src/pkmn_data.ts:41-42 | entries learned at the same level keep their record order |
| PkmnData.CollectLearnset | src/pkmn_data.ts:32-38 | the `for ... in` loop builds exactly that learnset |
| PkmnData.NewPokemon | src/pkmn_data.ts:29-45 | the constructor, with its key loop and the sort of a fresh copy, builds that creature; the record is not changed |
| PkmnData.PokemonNamed | src/pkmn_data.ts:77-84 | the lookup is `null` exactly when the lower-cased name is not in the current edition's table; a found creature carries the name exactly as passed |
| PkmnData.LookupIgnoresCase | src/pkmn_data.ts:78 | names that differ only in case find the same record |
| PkmnData.DisplayNameFindsRecord | src/pkmn_data.ts:77-84 | a capitalised catalog name finds its own record |
| PkmnData.AddTableNames | src/pkmn_data.ts:14-16 | the inner loop adds each capitalised name of one table, once |
| PkmnData.GetPokemonNames | src/pkmn_data.ts:11-19 | the result holds exactly the capitalised names of every edition, with no duplicates |
| PkmnData.GameData.constructor | src/pkmn_data.ts:71-75 | stores the edition and the catalog |
| PkmnData.GameData.SetVersion | src/pkmn_data.ts:93-99 | afterwards, `GetVersion()` returns the new edition, and lookups use its table |
| PkmnData.GameData.GetVersion | src/pkmn_data.ts:97-99 | the edition field, read without change; `PkmnData.GameData.SetVersion` states what it returns after a change |
| PkmnData.GameData.GetPokemon | src/pkmn_data.ts:77-84 | returns the case-insensitive lookup in the current edition |
| Classify.LastNamed | src/game_state.ts:46-48 | the index of the last entry with the name; -1 exactly when no entry has it |
| Classify.BestMatch | src/game_state.ts:44-55 | `null` exactly when no entry has the move name; otherwise a list entry with that name: the equal entry if there is one, else the last same-name entry |
| Classify.FindLearnItem | src/game_state.ts:44-55 | the scan with early return computes exactly that entry |
| Classify.SearchInOrder | src/game_state.ts:68-80 | searching the buckets gives `Classify.BucketOf` of the move: egg, then tutor, then machine, missing buckets skipped, levels ignored |
| Classify.BucketSearch | src/game_state.ts:68-80 | the first listed bucket holding the move by name, else NoMatch; its order over `Buckets` is stated by `Classify.SearchInOrder` |
| Classify.MatchTypeOf | src/game_state.ts:57-81 | a level status exactly when the target learns the move by level-up; Match exactly when the pair is in the list; otherwise the comparison with the matched entry's level; each categorical status exactly when it is the first bucket holding the move, else NoMatch |
| Classify.ClassifyByLevel | src/game_state.ts:58-66 | with distinct level-up names: Match, LevelHigher or LevelLower as the target's level is equal to, above or below the guessed level |
| Classify.CategoryIgnoresLevel | src/game_state.ts:68-78 | outside the level-up list, the status depends on the move name only |
| Classify.OtherMethodsIgnored | src/game_state.ts:68-70 | learn methods other than egg, tutor and machine never affect the status |
| HintFold.Step | src/game_state.ts:108-127 | each `switch` case keeps the interval map's key order a duplicate-free list of its keys |
| HintFold.StepEffect | src/game_state.ts:113-125 | Match sets `[l, l]`; LevelHigher sets `low := max(l, low)`; LevelLower sets `high := min(l, high)`, from `[0, 255]` for a new move; a new key goes last in the order and a known one keeps its place; categorical statuses only add to their own set and leave the order, the intervals and the other sets alone; no other move changes |
| HintFold.CatMap | src/game_state.ts:113-116 | a categorical status is a key of `catMap` exactly when its set is non-empty, and maps to that set |
| HintFold.HintInfoGroups | src/game_state.ts:84-94 | `getAllHintInfo` keys exactly the statuses that occur, each once, in first-appearance order, each with its entries in list order |
| HintFold.HintInfoOf | src/game_state.ts:84-94 | `getAllHintInfo` as a fold of `Record` over the level-up list; what it builds is stated by `HintFold.HintInfoGroups` |
| HintFold.WithStatusMembers | src/game_state.ts:86-91 | a status's group holds exactly the entries with that status |
| HintFold.HintsOf | src/game_state.ts:100-130 | the folded hints are well formed |
| HintFold.EntriesOf | src/game_state.ts:131-134 | `lvlMap.forEach` lists one entry per key, in insertion order, with its interval |
| HintFold.HintKeyLevel | src/game_state.ts:96-98 | the key level is one end of the interval, and lies inside it when `low <= high` |
| HintFold.SortedHints | src/game_state.ts:131-137 | the unsorted entries stably sorted by key level; its properties are stated by `HintLaws.SortedHintsCorrect` |
| HintLaws.GuessUpdatesExact | src/game_state.ts:103-107 | a guess contributes exactly its level-up entries, each with its classified status |
| HintLaws.AllUpdatesExact | src/game_state.ts:103-107 | the fold sees exactly the entries of all guesses, each classified |
| HintLaws.HintsDisjoint | src/game_state.ts:107-127 | each move sits where its name alone puts it, so the interval keys and the four sets are pairwise disjoint |
| HintLaws.ClassifiedTruthful | src/game_state.ts:57-67 | with distinct names, a level status says how the target's level compares with the guessed level |
| HintLaws.IntervalInvariant | src/game_state.ts:103-127 | with distinct names and levels in `[0, 255]`, every interval holds the target's level, so `low <= high` |
| HintLaws.StepNarrows | src/game_state.ts:113-125 | a truthful update only narrows intervals, keeps the key order as a prefix, and only grows the sets |
| HintLaws.HintsOfSnoc | src/game_state.ts:103-104 | one more guess folds its updates into the previous hints |
| HintLaws.GuessNarrows | src/game_state.ts:103-127 | appending a guess only narrows intervals and only grows the sets |
| HintLaws.StepIdempotent | src/game_state.ts:113-125 | every update is idempotent |
| HintLaws.AbsorbsIff | src/game_state.ts:113-125 | an update changes nothing exactly when the hints already reflect it |
| HintLaws.StepKeepsAbsorbed | src/game_state.ts:113-125 | a truthful update never undoes another truthful one |
| HintLaws.RepeatedGuessNoEffect | src/game_state.ts:103-127 | with distinct level-up names, a guess made again, after any guesses in between, leaves the hints unchanged; with a repeated name an intervening guess can move the `low` of a pinned interval, so the assumption is needed here |
| HintLaws.ApplyBounds | src/game_state.ts:113-125 | after any updates, the interval keys are exactly the old keys and the level moves, and each interval is its move's effect on the old one |
| HintLaws.ApplyTwice | src/game_state.ts:103-127 | folding the same updates a second time leaves the order, the intervals and the sets unchanged, for any starting hints |
| HintLaws.RepeatedGuessBackToBack | src/game_state.ts:103-104 | a guess made twice in a row changes nothing the second time, for every target |
| HintLaws.SortedHintsCorrect | src/game_state.ts:96-98 | the returned list holds exactly the interval-map entries, one per key, sorted ascending by `getHintKeyLevel`, ties in insertion order |
| Resolver.Candidates | src/game_state.ts:164-170 | exactly the target's level-up entries whose level lies in the interval |
| Resolver.CandidatesCount | src/game_state.ts:164-170 | each entry occurs among the candidates as often as in the level-up list when its level is in the interval, and never otherwise, so `IsKnown` counts entries with their repeats |
| Resolver.Resolve | src/game_state.ts:159-177 | the move is unchanged; the interval is a point exactly when the move is known; an entry that is not collapsed is left as it was; a collapsed one takes the single candidate's level |
| Resolver.ResolveIdempotent | src/game_state.ts:161-176 | resolving again changes nothing |
| Resolver.ResolveSound | src/game_state.ts:171-176 | under the interval invariant, the resolved interval still holds the target's level, and a known move's interval is exactly that level |
| Resolver.KnownNamesIff | src/game_state.ts:157-180 | a move is reported known exactly when some entry for it is a point or has exactly one candidate |
| Resolver.KnownMovesCorrect | src/game_state.ts:157-180 | for a sane target, every entry of the list from `getAllHints` resolves to an interval holding the target's level, pinned to it when known |
| Session.SwitchCase | src/game_state.ts:108-127 | the `switch` on the method's locals performs one update |
| Session.CatMapAdd | src/game_state.ts:113-116 | creating a set on first use and adding to it is adding to that status's set |
| Session.PushEntry | src/game_state.ts:88-91 | opening a group on first use and pushing onto it is recording the entry |
| Session.FoldGroup | src/game_state.ts:106-128 | folding one group's entries performs those updates in order |
| Session.FoldInfo | src/game_state.ts:105-129 | `info.forEach` folds the groups in their order |
| Session.EntryList | src/game_state.ts:131-134 | `lvlMap.forEach` builds the unsorted list |
| Session.GameState.constructor | src/game_state.ts:29-33 | stores the catalog and the target, with no guesses |
| Session.GameState.AddGuess | src/game_state.ts:35-42 | false and no change when the lookup gives `null`; otherwise true, with exactly the found creature appended |
| Session.GameState.GetMatchType | src/game_state.ts:57-81 | the method with its bucket loop computes the classification |
| Session.GameState.GetAllHintInfo | src/game_state.ts:84-94 | the loop builds the grouping of the guess's entries |
| Session.GameState.FoldGuess | src/game_state.ts:104-129 | folding one guess performs its updates |
| Session.GameState.FoldAll | src/game_state.ts:101-130 | the loop over the guesses builds the hints of all guesses |
| Session.GameState.GetAllHints | src/game_state.ts:100-139 | returns the categorical map of the folded hints and a fresh array equal to their sorted interval list |
| Session.GameState.CandidatesIn | src/game_state.ts:164-170 | the inner loop collects the candidates |
| Session.GameState.CheckKnown | src/game_state.ts:160-177 | one entry: reports whether it is known, overwrites it only when it collapses, and touches no other entry |
| Session.GameState.GetKnownMoves | src/game_state.ts:157-180 | every array entry becomes its resolved form, and the result is exactly the set of known moves |

## Left out

- Rendering is presentation and is left out: everything in `src/game_state.ts` from line 141 on (`getTableColor`, `displayKnownInfo`, `makeMoveTable`, `renderGuesses`), plus `src/main.ts` and `src/html_util.ts`.
- `scripts/dl.py` is left out: it makes HTTP requests and writes a file.
- `GameData.getRandom` depends on `Math.random` and floating point, so it is not modelled. A target is simply a given `Pokemon`.
- `MoveData` and `getMoveType` serve only display bolding. The `GameData` model omits its `moveData` field.
- `getSprite` builds a DOM element and is left out.
- Case mapping is ASCII only; Unicode `toUpperCase` and `toLowerCase` are not modelled.
- Records are modelled as already typed JSON values. `PkmnData.WellShaped` states the shape that the constructor's type assertions take for granted.
- `PkmnData.GameData.GetPokemon` requires the current edition's table to exist. Without it the source throws, and that path is not modelled.
- The JavaScript `in` operator also sees inherited properties such as `constructor`. Catalog keys are modelled as plain map keys.
- `PkmnData.GetPokemonNames`: states the set of names and their distinctness, not their order, because `Object.keys` order is not modelled.
- `PkmnData.CollectLearnset`: the learnset is a map, so the `for ... in` visiting order of keys does not matter and is not modelled.
- `Session.GameState.GetAllHints`: the categorical sets are sets, so neither JavaScript's insertion order of set elements nor the key order of `catMap` is modelled. The interval map's order is modelled.
- Sprite ids are integers rendered in plain decimal. The exponent notation JavaScript uses for very large numbers is not modelled.
- `findLearnItem` is a module-level method (`Classify.FindLearnItem`) rather than a static class member.
- The interval list holds value tuples. The source's tuples are fresh on each `getAllHints` call, so no aliasing between entries is lost.
