/**
 * The classifier of src/game_state.ts: how one `[level, move]` entry of a guessed creature
 * compares with the target creature.
 */
module Classify {
  import opened Wrappers
  import opened PkmnData

  /** How a guessed entry relates to the target. */
  datatype MatchType = Match | LevelLower | LevelHigher | ByTM | ByEgg | ByTutor | NoMatch

  /** The move names of a learn list. */
  function MoveNames(list: seq<LearnItem>): set<string> {
    set e | e in list :: e.move
  }

  /** The index of the last entry named `m`, or -1 when there is none. */
  function LastNamed(list: seq<LearnItem>, m: string): (i: int)
    ensures -1 <= i < |list|
    ensures i >= 0 ==> list[i].move == m
    ensures forall k :: i < k < |list| ==> list[k].move != m
    ensures i == -1 <==> m !in MoveNames(list)
  {
    if list == [] then -1
    else if list[|list| - 1].move == m then |list| - 1
    else
      var i := LastNamed(list[..|list| - 1], m);
      assert m in MoveNames(list[..|list| - 1]) ==> m in MoveNames(list) by {
        if m in MoveNames(list[..|list| - 1]) {
          var e :| e in list[..|list| - 1] && e.move == m;
          assert e in list;
        }
      }
      i
  }

  /**
   * `findLearnItem`'s answer: the entry equal to `item` when the list holds one, otherwise
   * the last entry with the same move name, otherwise none.
   */
  function BestMatch(list: seq<LearnItem>, item: LearnItem): (r: Option<LearnItem>)
    ensures r.None? <==> item.move !in MoveNames(list)
    ensures r.Some? ==> r.value in list && r.value.move == item.move
    ensures item in list ==> r == Some(item)
    ensures item !in list && r.Some? ==>
      exists i :: 0 <= i < |list| && list[i] == r.value && forall k :: i < k < |list| ==> list[k].move != item.move
  {
    if item in list then
      assert item.move in MoveNames(list);
      Some(item)
    else LastSoFar(list, item.move)
  }

  /** The last entry named `m`, if any: what `findLearnItem`'s scan holds after a prefix. */
  function LastSoFar(list: seq<LearnItem>, m: string): Option<LearnItem> {
    var i := LastNamed(list, m);
    if i >= 0 then Some(list[i]) else None
  }

  /** `findLearnItem`: a scan remembering the last same-name entry, stopping at an exact one. */
  method FindLearnItem(list: seq<LearnItem>, item: LearnItem) returns (r: Option<LearnItem>)
    ensures r == BestMatch(list, item)
  {
    r := None;
    for i := 0 to |list|
      invariant item !in list[..i]
      invariant r == LastSoFar(list[..i], item.move)
    {
      var entry := list[i];
      assert list[..i + 1] == list[..i] + [entry];
      assert list[..i + 1][..i] == list[..i];
      if entry.move == item.move {
        r := Some(entry);
        if entry.level == item.level {
          assert entry == item;
          return;
        }
      }
    }
    assert list[..|list|] == list;
  }

  /** The categorical buckets in the order they are searched. */
  const Buckets: seq<(MatchType, string)> := [(ByEgg, "egg"), (ByTutor, "tutor"), (ByTM, "machine")]

  /** The target learns a move named `m` by the method `key`. */
  predicate InBucket(t: Pokemon, key: string, m: string) {
    key in t.learnset && m in MoveNames(t.learnset[key])
  }

  /** The first bucket of `buckets` holding the move by name (missing buckets skipped), else NoMatch. */
  function BucketSearch(t: Pokemon, item: LearnItem, buckets: seq<(MatchType, string)>): MatchType
  {
    if buckets == [] then NoMatch
    else if buckets[0].1 in t.learnset && BestMatch(t.learnset[buckets[0].1], item).Some? then buckets[0].0
    else BucketSearch(t, item, buckets[1..])
  }

  /** The categorical status of a move by name: the first of egg, tutor and machine that holds it, else NoMatch. */
  function BucketOf(t: Pokemon, m: string): MatchType {
    if InBucket(t, "egg", m) then ByEgg
    else if InBucket(t, "tutor", m) then ByTutor
    else if InBucket(t, "machine", m) then ByTM
    else NoMatch
  }

  /** Searching `Buckets` tries egg, then tutor, then machine. */
  lemma SearchInOrder(t: Pokemon, item: LearnItem)
    ensures BucketSearch(t, item, Buckets) == BucketOf(t, item.move)
  {
    var rest1 := [(ByTutor, "tutor"), (ByTM, "machine")];
    var rest2 := [(ByTM, "machine")];
    assert Buckets[1..] == rest1 && rest1[1..] == rest2 && rest2[1..] == [];
    assert BucketSearch(t, item, rest2) == if InBucket(t, "machine", item.move) then ByTM else NoMatch;
    assert BucketSearch(t, item, rest1) ==
      if InBucket(t, "tutor", item.move) then ByTutor else BucketSearch(t, item, rest2);
  }

  /** The level-up statuses. */
  predicate IsLevelStatus(s: MatchType) {
    s == Match || s == LevelHigher || s == LevelLower
  }

  /** `getMatchType`: level-up list first, then the egg, tutor and machine buckets by name. */
  function MatchTypeOf(t: Pokemon, item: LearnItem): (r: MatchType)
    ensures IsLevelStatus(r) <==> item.move in MoveNames(t.levelup)
    ensures r == Match <==> item in t.levelup
    ensures item.move in MoveNames(t.levelup) && item !in t.levelup ==>
      var e := t.levelup[LastNamed(t.levelup, item.move)];
      r == (if e.level > item.level then LevelHigher else LevelLower)
    ensures r == ByEgg <==> item.move !in MoveNames(t.levelup) && InBucket(t, "egg", item.move)
    ensures r == ByTutor <==>
      item.move !in MoveNames(t.levelup) && !InBucket(t, "egg", item.move) && InBucket(t, "tutor", item.move)
    ensures r == ByTM <==>
      item.move !in MoveNames(t.levelup) && !InBucket(t, "egg", item.move) && !InBucket(t, "tutor", item.move)
      && InBucket(t, "machine", item.move)
    ensures r == NoMatch <==>
      item.move !in MoveNames(t.levelup) && !InBucket(t, "egg", item.move) && !InBucket(t, "tutor", item.move)
      && !InBucket(t, "machine", item.move)
  {
    var learnMatch := BestMatch(t.levelup, item);
    if learnMatch.Some? then
      if learnMatch.value.level == item.level then
        assert learnMatch.value == item;
        Match
      else if learnMatch.value.level > item.level then LevelHigher
      else LevelLower
    else
      SearchInOrder(t, item);
      BucketSearch(t, item, Buckets)
  }

  /** No two entries share a move name. */
  predicate DistinctMoves(list: seq<LearnItem>) {
    forall i, j :: 0 <= i < j < |list| ==> list[i].move != list[j].move
  }

  /** With distinct names, the last entry named like `e` is `e` itself. */
  lemma LastNamedDistinct(list: seq<LearnItem>, e: LearnItem)
    requires DistinctMoves(list) && e in list
    ensures LastNamed(list, e.move) >= 0 && list[LastNamed(list, e.move)] == e
  {
    var k :| 0 <= k < |list| && list[k] == e;
    assert e.move in MoveNames(list);
  }

  /**
   * With distinct level-up names, a move the target learns by level-up is classified by
   * comparing the target's level `e.level` with the guessed level.
   */
  lemma ClassifyByLevel(t: Pokemon, e: LearnItem, item: LearnItem)
    requires DistinctMoves(t.levelup) && e in t.levelup && e.move == item.move
    ensures MatchTypeOf(t, item) == Match <==> e.level == item.level
    ensures MatchTypeOf(t, item) == LevelHigher <==> e.level > item.level
    ensures MatchTypeOf(t, item) == LevelLower <==> e.level < item.level
  {
    LastNamedDistinct(t.levelup, e);
    assert item.move in MoveNames(t.levelup);
    if item in t.levelup {
      LastNamedDistinct(t.levelup, item);
    }
  }

  /** Outside the level-up list, the status depends on the move name and not on the level. */
  lemma CategoryIgnoresLevel(t: Pokemon, a: LearnItem, b: LearnItem)
    requires a.move == b.move && a.move !in MoveNames(t.levelup)
    ensures MatchTypeOf(t, a) == MatchTypeOf(t, b)
    ensures !IsLevelStatus(MatchTypeOf(t, a))
  {
  }

  /** Learn methods other than egg, tutor and machine are never consulted. */
  lemma OtherMethodsIgnored(t: Pokemon, u: Pokemon, item: LearnItem)
    requires t.levelup == u.levelup
    requires forall k :: k in ["egg", "tutor", "machine"] ==>
      (k in t.learnset <==> k in u.learnset) && (k in t.learnset ==> t.learnset[k] == u.learnset[k])
    ensures MatchTypeOf(t, item) == MatchTypeOf(u, item)
  {
    assert "egg" in ["egg", "tutor", "machine"];
    assert "tutor" in ["egg", "tutor", "machine"];
    assert "machine" in ["egg", "tutor", "machine"];
  }
}
