/**
 * The creature catalog (src/pkmn_data.ts): learn records, building a creature from its
 * JSON record, the list of display names, and the case-insensitive lookup.
 */
module PkmnData {
  import opened Wrappers
  import opened Sorting
  import opened StrUtil
  import opened Versions

  /** `[level, move]`: a move learned at a level (the level is 0 for non-level-up methods). */
  datatype LearnItem = LearnItem(level: int, move: string)

  /** Learn method name ("egg", "tutor", "machine", ...) to its list. */
  type Learnset = map<string, seq<LearnItem>>

  /** A value in a creature's JSON record: a learn list, the numeric id, or the type names. */
  datatype JsonValue = Moves(items: seq<LearnItem>) | Number(n: int) | Names(names: seq<string>)

  type PokemonJson = map<string, JsonValue>
  /** Creature name (lower case) to record, for one edition. */
  type VersionedPokemonData = map<string, PokemonJson>
  /** Edition key to that edition's table. */
  type AllPokemonData = map<string, VersionedPokemonData>

  /** A creature as the game sees it; none of its fields change after construction. */
  datatype Pokemon = Pokemon(
    name: string,
    learnset: Learnset,
    levelup: seq<LearnItem>,
    id: int,
    version: Version,
    types: seq<string>)

  /** The record keys that are not learn methods. */
  const ReservedKeys: set<string> := {"id", "level-up", "types"}

  /** The shape the constructor's type assertions take for granted. */
  predicate WellShaped(j: PokemonJson) {
    && "id" in j && j["id"].Number?
    && "level-up" in j && j["level-up"].Moves?
    && "types" in j && j["types"].Names?
    && forall k :: k in j && k !in ReservedKeys ==> j[k].Moves?
  }

  /** The sort key of a level-up entry. */
  function Level(item: LearnItem): int {
    item.level
  }

  /** The learnset: every record key that is not reserved, with its list. */
  function LearnsetOf(j: PokemonJson): (learnset: Learnset)
    requires WellShaped(j)
    ensures learnset.Keys == j.Keys - ReservedKeys
    ensures forall k :: k in learnset ==> j[k] == Moves(learnset[k])
  {
    map k | k in j && k !in ReservedKeys :: j[k].items
  }

  /** The creature the `Pokemon` constructor builds from `j`. */
  function PokemonOf(name: string, j: PokemonJson, version: Version): (p: Pokemon)
    requires WellShaped(j)
    ensures p.name == name && p.version == version
    ensures p.id == j["id"].n && p.types == j["types"].names
    ensures p.learnset.Keys == j.Keys - ReservedKeys
    ensures forall k :: k in p.learnset ==> j[k] == Moves(p.learnset[k])
    ensures SortedBy(p.levelup, Level)
    ensures multiset(p.levelup) == multiset(j["level-up"].items)
  {
    Pokemon(name, LearnsetOf(j), InsertionSort(j["level-up"].items, Level), j["id"].n, version, j["types"].names)
  }

  /** Entries learned at the same level keep the order they have in the record. */
  lemma LevelupStable(name: string, j: PokemonJson, version: Version, level: int)
    requires WellShaped(j)
    ensures WithKey(PokemonOf(name, j, version).levelup, Level, level) == WithKey(j["level-up"].items, Level, level)
  {
    InsertionSortStable(j["level-up"].items, Level, level);
  }

  /**
   * The `Pokemon` constructor: copies every record key except "id", "level-up" and "types"
   * into the learnset, and sorts a copy of the level-up list by level.
   */
  method NewPokemon(name: string, j: PokemonJson, version: Version) returns (p: Pokemon)
    requires WellShaped(j)
    ensures p == PokemonOf(name, j, version)
  {
    var learnset := CollectLearnset(j);
    var source := j["level-up"].items;
    var levelup := new LearnItem[|source|](i requires 0 <= i < |source| => source[i]);
    assert levelup[..] == source;
    SortByKey(levelup, Level);
    p := Pokemon(name, learnset, levelup[..], j["id"].n, version, j["types"].names);
  }

  /** The constructor's key loop. */
  method CollectLearnset(j: PokemonJson) returns (learnset: Learnset)
    requires WellShaped(j)
    ensures learnset == LearnsetOf(j)
  {
    learnset := map[];
    var keys := j.Keys;
    while keys != {}
      invariant keys <= j.Keys
      invariant learnset == map k | k in j && k !in keys && k !in ReservedKeys :: j[k].items
      decreases keys
    {
      var key :| key in keys;
      if key !in ReservedKeys {
        learnset := learnset[key := j[key].items];
      }
      keys := keys - {key};
    }
  }

  /** What a lookup needs: the edition's table exists, and the record found has the expected shape. */
  predicate CanLookup(d: AllPokemonData, v: Version, name: string) {
    && VersionKey(v) in d
    && (ToLower(name) in d[VersionKey(v)] ==> WellShaped(d[VersionKey(v)][ToLower(name)]))
  }

  /** `getPokemon`'s answer: the record under the lower-cased name, built with the name as given. */
  function PokemonNamed(d: AllPokemonData, v: Version, name: string): (r: Option<Pokemon>)
    requires CanLookup(d, v, name)
    ensures r.None? <==> ToLower(name) !in d[VersionKey(v)]
    ensures r.Some? ==> r.value.name == name && r.value.version == v
  {
    var table := d[VersionKey(v)];
    var key := ToLower(name);
    if key in table then Some(PokemonOf(name, table[key], v)) else None
  }

  /** Names that differ only in case find the same record; only the stored name differs. */
  lemma LookupIgnoresCase(d: AllPokemonData, v: Version, a: string, b: string)
    requires CanLookup(d, v, a) && ToLower(a) == ToLower(b)
    ensures CanLookup(d, v, b)
    ensures PokemonNamed(d, v, a).None? == PokemonNamed(d, v, b).None?
    ensures PokemonNamed(d, v, a).Some? ==>
      PokemonNamed(d, v, a).value.(name := b) == PokemonNamed(d, v, b).value
  {
  }

  /** Every display name of a lower-case catalog name finds that record in its edition. */
  lemma DisplayNameFindsRecord(d: AllPokemonData, v: Version, n: string)
    requires VersionKey(v) in d && n in d[VersionKey(v)] && ToLower(n) == n
    requires WellShaped(d[VersionKey(v)][n])
    ensures CanLookup(d, v, Capitalize(n))
    ensures PokemonNamed(d, v, Capitalize(n)) == Some(PokemonOf(Capitalize(n), d[VersionKey(v)][n], v))
  {
    CapitalizeToLower(n);
  }

  /** The capitalized names of the editions in `versions`. */
  ghost function NamesIn(all: AllPokemonData, versions: set<string>): set<string> {
    set v, n | v in versions && v in all && n in all[v] :: Capitalize(n)
  }

  /** Every name of every edition, capitalized. */
  ghost function DisplayNames(all: AllPokemonData): set<string> {
    NamesIn(all, all.Keys)
  }

  ghost predicate Distinct(s: seq<string>) {
    forall i, j :: 0 <= i < j < |s| ==> s[i] != s[j]
  }

  lemma NamesInAdd(all: AllPokemonData, versions: set<string>, v: string)
    requires v in all
    ensures NamesIn(all, versions + {v}) == NamesIn(all, versions) + set n | n in all[v] :: Capitalize(n)
  {
  }

  /** The inner loop of `getPokemonNames`: appends the unseen capitalized names of one table. */
  method AddTableNames(table: VersionedPokemonData, names0: seq<string>, seen0: set<string>)
    returns (names: seq<string>, seen: set<string>)
    requires seen0 == (set x | x in names0) && Distinct(names0)
    ensures seen == (set x | x in names) && Distinct(names)
    ensures seen == seen0 + set n | n in table :: Capitalize(n)
  {
    names, seen := names0, seen0;
    var pending := table.Keys;
    while pending != {}
      invariant pending <= table.Keys
      invariant seen == (set x | x in names) && Distinct(names)
      invariant seen == seen0 + set n | n in table && n !in pending :: Capitalize(n)
      decreases pending
    {
      var name :| name in pending;
      var shown := Capitalize(name);
      if shown !in seen {
        names := names + [shown];
        seen := seen + {shown};
      }
      pending := pending - {name};
    }
  }

  /** `getPokemonNames`: each capitalized name of every edition, once. */
  method GetPokemonNames(all: AllPokemonData) returns (names: seq<string>)
    ensures Distinct(names)
    ensures (set x | x in names) == DisplayNames(all)
  {
    var seen: set<string> := {};
    names := [];
    var versions := all.Keys;
    while versions != {}
      invariant versions <= all.Keys
      invariant seen == (set x | x in names) && Distinct(names)
      invariant seen == NamesIn(all, all.Keys - versions)
      decreases versions
    {
      var version :| version in versions;
      names, seen := AddTableNames(all[version], names, seen);
      NamesInAdd(all, all.Keys - versions, version);
      assert all.Keys - (versions - {version}) == (all.Keys - versions) + {version};
      versions := versions - {version};
    }
  }

  /**
   * `GameData`: the loaded catalog and the current edition. The move-type table it also
   * holds is used only for display and is left out.
   */
  class GameData {
    var version: Version
    const pkmnData: AllPokemonData

    constructor (v: Version, d: AllPokemonData)
      ensures version == v && pkmnData == d
    {
      version := v;
      pkmnData := d;
    }

    function GetVersion(): Version
      reads this
    {
      version
    }

    /** After `SetVersion(v)`, `GetVersion()` is `v` and lookups use `v`'s table. */
    method SetVersion(ver: Version)
      modifies this
      ensures GetVersion() == ver
    {
      version := ver;
    }

    /** `getPokemon`: case-insensitive lookup in the current edition's table. */
    method GetPokemon(name: string) returns (r: Option<Pokemon>)
      requires CanLookup(pkmnData, version, name)
      ensures r == PokemonNamed(pkmnData, version, name)
    {
      var nameKey := ToLower(name);
      var ver := pkmnData[VersionKey(version)];
      if nameKey !in ver {
        return None;
      }
      var p := NewPokemon(name, ver[nameKey], version);
      return Some(p);
    }
  }
}
