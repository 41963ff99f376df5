/**
 * The session of src/game_state.ts: the catalog, the target creature and the guesses so far,
 * with the imperative forms of the classifier, the hint folder and the resolver.
 */
module Session {
  import opened Wrappers
  import opened Sorting
  import opened PkmnData
  import opened Classify
  import opened HintFold
  import opened HintLaws
  import opened Resolver

  /** The state before and after one `switch` case of `getAllHints`, as the method's locals hold it. */
  ghost predicate Holds(h: Hints, order: seq<string>, lvlMap: map<string, Range>, catMap: map<MatchType, set<string>>) {
    order == h.order && lvlMap == h.bounds && catMap == CatMap(h.cats)
  }

  /** Adding a move to a categorical set, as `catMap` sees it. */
  lemma CatMapAdd(c: Categories, s: MatchType, m: string)
    requires !IsLevelStatus(s)
    ensures CatMap(AddTo(c, s, m)) == CatMap(c)[s := CatSet(c, s) + {m}]
  {
    var after := AddTo(c, s, m);
    assert forall s' :: !IsLevelStatus(s') && s' != s ==> CatSet(after, s') == CatSet(c, s');
  }

  /** One case of the `switch` in `getAllHints`, on the method's locals. */
  method SwitchCase(ghost h: Hints, order0: seq<string>, lvlMap0: map<string, Range>,
                    catMap0: map<MatchType, set<string>>, status: MatchType, entry: LearnItem)
    returns (order: seq<string>, lvlMap: map<string, Range>, catMap: map<MatchType, set<string>>)
    requires Holds(h, order0, lvlMap0, catMap0)
    ensures Holds(Step(h, Update(status, entry)), order, lvlMap, catMap)
  {
    order, lvlMap, catMap := order0, lvlMap0, catMap0;
    var level, move := entry.level, entry.move;
    match status
    case ByEgg | ByTM | ByTutor | NoMatch =>
      if status !in catMap {
        catMap := catMap[status := {}];
      }
      assert catMap[status] == CatSet(h.cats, status);
      catMap := catMap[status := catMap[status] + {move}];
      CatMapAdd(h.cats, status, move);
      assert catMap == CatMap(h.cats)[status := CatSet(h.cats, status) + {move}];
    case Match =>
      if move !in lvlMap {
        order := order + [move];
      }
      lvlMap := lvlMap[move := Range(level, level)];
    case LevelHigher | LevelLower =>
      var existing := if move in lvlMap then lvlMap[move] else Unbounded;
      if move !in lvlMap {
        order := order + [move];
      }
      lvlMap := lvlMap[move := Range(if status == LevelHigher then Max(level, existing.low) else existing.low,
                                     if status == LevelLower then Min(level, existing.high) else existing.high)];
  }

  lemma HintInfoStep(t: Pokemon, items: seq<LearnItem>, i: nat)
    requires i < |items|
    ensures HintInfoOf(t, items[..i + 1]) == Record(HintInfoOf(t, items[..i]), MatchTypeOf(t, items[i]), items[i])
  {
    assert items[..i + 1][..i] == items[..i];
  }

  /** The body of `getAllHintInfo`'s loop: opens the status's group if needed, then appends. */
  method PushEntry(info0: HintInfo, status: MatchType, entry: LearnItem) returns (info: HintInfo)
    ensures info == Record(info0, status, entry)
  {
    info := info0;
    if status !in info.groups {
      info := HintInfo(info.order + [status], info.groups[status := []]);
    }
    info := info.(groups := info.groups[status := info.groups[status] + [entry]]);
    assert [] + [entry] == [entry];
  }

  /** Folds one status's entries into the locals. */
  method FoldGroup(ghost h0: Hints, ghost before: seq<Update>, status: MatchType, moves: seq<LearnItem>,
                   order0: seq<string>, lvlMap0: map<string, Range>, catMap0: map<MatchType, set<string>>)
    returns (order: seq<string>, lvlMap: map<string, Range>, catMap: map<MatchType, set<string>>)
    requires Holds(Apply(h0, before), order0, lvlMap0, catMap0)
    ensures Holds(Apply(h0, before + StatusUpdates(status, moves)), order, lvlMap, catMap)
  {
    order, lvlMap, catMap := order0, lvlMap0, catMap0;
    ghost var done := before;
    ghost var cur := Apply(h0, before);
    assert StatusUpdates(status, moves[..0]) == [];
    assert before + StatusUpdates(status, moves[..0]) == before;
    for k := 0 to |moves|
      invariant done == before + StatusUpdates(status, moves[..k])
      invariant cur == Apply(h0, done)
      invariant Holds(cur, order, lvlMap, catMap)
    {
      var u := Update(status, moves[k]);
      order, lvlMap, catMap := SwitchCase(cur, order, lvlMap, catMap, status, moves[k]);
      ApplySnoc(h0, done, u);
      StatusUpdatesSnoc(status, moves, k);
      done, cur := done + [u], Step(cur, u);
    }
    assert moves[..|moves|] == moves;
  }

  /** `info.forEach`: folds the groups in order into the locals. */
  method FoldInfo(ghost h0: Hints, info: HintInfo,
                  order0: seq<string>, lvlMap0: map<string, Range>, catMap0: map<MatchType, set<string>>)
    returns (order: seq<string>, lvlMap: map<string, Range>, catMap: map<MatchType, set<string>>)
    requires Grouped(info) && Holds(h0, order0, lvlMap0, catMap0)
    ensures Holds(Apply(h0, FlatUpdates(info, |info.order|)), order, lvlMap, catMap)
  {
    order, lvlMap, catMap := order0, lvlMap0, catMap0;
    for si := 0 to |info.order|
      invariant Holds(Apply(h0, FlatUpdates(info, si)), order, lvlMap, catMap)
    {
      var status := info.order[si];
      order, lvlMap, catMap := FoldGroup(h0, FlatUpdates(info, si), status, info.groups[status], order, lvlMap, catMap);
    }
  }

  /** `lvlMap.forEach`: the interval entries in insertion order. */
  method EntryList(ghost h: Hints, order: seq<string>, lvlMap: map<string, Range>) returns (entries: seq<LevelHint>)
    requires WellFormed(h) && order == h.order && lvlMap == h.bounds
    ensures entries == Entries(h)
  {
    entries := [];
    for i := 0 to |order|
      invariant entries == EntriesOf(order[..i], lvlMap)
    {
      var key := order[i];
      assert order[..i + 1][..i] == order[..i];
      entries := entries + [LevelHint(key, lvlMap[key].low, lvlMap[key].high)];
    }
    assert order[..|order|] == order;
  }

  lemma StatusUpdatesSnoc(s: MatchType, moves: seq<LearnItem>, k: nat)
    requires k < |moves|
    ensures StatusUpdates(s, moves[..k + 1]) == StatusUpdates(s, moves[..k]) + [Update(s, moves[k])]
  {
  }

  lemma KnownNamesSnoc(t: Pokemon, hs: seq<LevelHint>, i: nat)
    requires i < |hs|
    ensures KnownNames(t, hs[..i + 1]) == KnownNames(t, hs[..i]) + if IsKnown(t, hs[i]) then {hs[i].move} else {}
  {
    assert hs[..i + 1][..i] == hs[..i];
  }

  lemma ApplySnoc(h: Hints, us: seq<Update>, u: Update)
    ensures Apply(h, us + [u]) == Step(Apply(h, us), u)
  {
    assert (us + [u])[..|us|] == us;
  }

  /** `GameState`: the catalog, the target, and the guesses in the order they were made. */
  class GameState {
    const data: GameData
    const target: Pokemon
    var guesses: seq<Pokemon>

    constructor (data: GameData, mon: Pokemon)
      ensures this.data == data && target == mon && guesses == []
    {
      this.data := data;
      target := mon;
      guesses := [];
    }

    /** `addGuess`: appends the creature found under `name`, or reports that there is none. */
    method AddGuess(name: string) returns (ok: bool)
      requires CanLookup(data.pkmnData, data.version, name)
      modifies this
      ensures ok <==> PokemonNamed(data.pkmnData, data.version, name).Some?
      ensures guesses == if ok then old(guesses) + [PokemonNamed(data.pkmnData, data.version, name).value] else old(guesses)
    {
      var mon := data.GetPokemon(name);
      if mon.None? {
        return false;
      }
      guesses := guesses + [mon.value];
      return true;
    }

    /** `getMatchType`, with its bucket loop. */
    method GetMatchType(item: LearnItem) returns (r: MatchType)
      ensures r == MatchTypeOf(target, item)
    {
      var learnMatch := FindLearnItem(target.levelup, item);
      if learnMatch.Some? {
        if learnMatch.value.level == item.level {
          return Match;
        } else if learnMatch.value.level > item.level {
          return LevelHigher;
        } else {
          return LevelLower;
        }
      }
      SearchInOrder(target, item);
      for i := 0 to |Buckets|
        invariant BucketSearch(target, item, Buckets) == BucketSearch(target, item, Buckets[i..])
      {
        var entry := Buckets[i];
        if entry.1 in target.learnset {
          var found := FindLearnItem(target.learnset[entry.1], item);
          if found.Some? {
            return entry.0;
          }
        }
        assert Buckets[i..][1..] == Buckets[i + 1..];
      }
      return NoMatch;
    }

    /** `getAllHintInfo`: the guess's level-up entries grouped by status. */
    method GetAllHintInfo(pkmn: Pokemon) returns (info: HintInfo)
      ensures info == HintInfoOf(target, pkmn.levelup)
    {
      info := HintInfo([], map[]);
      for i := 0 to |pkmn.levelup|
        invariant info == HintInfoOf(target, pkmn.levelup[..i])
      {
        var entry := pkmn.levelup[i];
        var status := GetMatchType(entry);
        info := PushEntry(info, status, entry);
        HintInfoStep(target, pkmn.levelup, i);
      }
      assert pkmn.levelup[..|pkmn.levelup|] == pkmn.levelup;
    }

    /** Folds one guess's grouped entries into the locals. */
    method FoldGuess(ghost h0: Hints, pkmn: Pokemon,
                     order0: seq<string>, lvlMap0: map<string, Range>, catMap0: map<MatchType, set<string>>)
      returns (order: seq<string>, lvlMap: map<string, Range>, catMap: map<MatchType, set<string>>)
      requires Holds(h0, order0, lvlMap0, catMap0)
      ensures Holds(Apply(h0, GuessUpdates(target, pkmn)), order, lvlMap, catMap)
    {
      var info := GetAllHintInfo(pkmn);
      HintInfoGrouped(target, pkmn.levelup);
      order, lvlMap, catMap := FoldInfo(h0, info, order0, lvlMap0, catMap0);
      assert GuessUpdates(target, pkmn) == FlatUpdates(info, |info.order|);
    }

    /**
     * `getAllHints`: the categorical map and the interval list folded from every guess so far,
     * the list sorted by key level.
     */
    method GetAllHints() returns (catMap: map<MatchType, set<string>>, sortedLvlMap: array<LevelHint>)
      ensures fresh(sortedLvlMap)
      ensures catMap == CatMap(HintsOf(target, guesses).cats)
      ensures sortedLvlMap[..] == SortedHints(HintsOf(target, guesses))
    {
      var order, lvlMap;
      order, lvlMap, catMap := FoldAll();
      ghost var h := HintsOf(target, guesses);
      var entries := EntryList(h, order, lvlMap);
      sortedLvlMap := new LevelHint[|entries|](i requires 0 <= i < |entries| => entries[i]);
      assert sortedLvlMap[..] == Entries(h);
      SortByKey(sortedLvlMap, HintKeyLevel);
    }

    /** The loop of `getAllHints` over the guesses. */
    method FoldAll() returns (order: seq<string>, lvlMap: map<string, Range>, catMap: map<MatchType, set<string>>)
      ensures Holds(HintsOf(target, guesses), order, lvlMap, catMap)
    {
      order, lvlMap, catMap := [], map[], map[];
      assert guesses[..0] == [];
      for gi := 0 to |guesses|
        invariant Holds(HintsOf(target, guesses[..gi]), order, lvlMap, catMap)
      {
        order, lvlMap, catMap := FoldGuess(HintsOf(target, guesses[..gi]), guesses[gi], order, lvlMap, catMap);
        HintsOfSnoc(target, guesses[..gi], guesses[gi]);
        assert guesses[..gi + 1] == guesses[..gi] + [guesses[gi]];
      }
      assert guesses[..|guesses|] == guesses;
    }

    /**
     * `getKnownMoves`: collects the known moves and collapses, in place, each interval that
     * exactly one target level-up entry falls inside.
     */
    method GetKnownMoves(levelKnowledge: array<LevelHint>) returns (knownMoves: set<string>)
      modifies levelKnowledge
      ensures forall i :: 0 <= i < levelKnowledge.Length ==> levelKnowledge[i] == Resolve(target, old(levelKnowledge[i]))
      ensures knownMoves == KnownNames(target, old(levelKnowledge[..]))
    {
      ghost var original := levelKnowledge[..];
      knownMoves := {};
      for i := 0 to levelKnowledge.Length
        invariant forall k :: 0 <= k < i ==> levelKnowledge[k] == Resolve(target, original[k])
        invariant forall k :: i <= k < levelKnowledge.Length ==> levelKnowledge[k] == original[k]
        invariant knownMoves == KnownNames(target, original[..i])
      {
        KnownNamesSnoc(target, original, i);
        var known := CheckKnown(levelKnowledge, i);
        if known {
          knownMoves := knownMoves + {levelKnowledge[i].move};
        }
      }
      assert original[..levelKnowledge.Length] == original;
    }

    /**
     * The body of `getKnownMoves`' loop for entry `i`: whether its move is known; the entry is
     * overwritten only when exactly one candidate level remains.
     */
    method CheckKnown(levelKnowledge: array<LevelHint>, i: nat) returns (known: bool)
      requires i < levelKnowledge.Length
      modifies levelKnowledge
      ensures known == IsKnown(target, old(levelKnowledge[i]))
      ensures levelKnowledge[i] == Resolve(target, old(levelKnowledge[i]))
      ensures forall k :: 0 <= k < levelKnowledge.Length && k != i ==> levelKnowledge[k] == old(levelKnowledge[k])
    {
      var item := levelKnowledge[i];
      if item.low == item.high {
        known := true;
      } else {
        var matchingItems := CandidatesIn(item.low, item.high);
        known := |matchingItems| == 1;
        if known {
          levelKnowledge[i] := item.(low := matchingItems[0].level, high := matchingItems[0].level);
        }
      }
    }

    /** The inner loop of `getKnownMoves`: the target's level-up entries inside `[lo, hi]`. */
    method CandidatesIn(lo: int, hi: int) returns (matchingItems: seq<LearnItem>)
      ensures matchingItems == Candidates(target.levelup, lo, hi)
    {
      matchingItems := [];
      for j := 0 to |target.levelup|
        invariant matchingItems == Candidates(target.levelup[..j], lo, hi)
      {
        var lvlItem := target.levelup[j];
        assert target.levelup[..j + 1][..j] == target.levelup[..j];
        if lvlItem.level >= lo && lvlItem.level <= hi {
          matchingItems := matchingItems + [lvlItem];
        }
      }
      assert target.levelup[..|target.levelup|] == target.levelup;
    }
  }
}
