/**
 * The resolver of src/game_state.ts (`getKnownMoves`): a move is known when its interval is
 * a single level, or when exactly one of the target's level-up entries falls inside it; in
 * the second case the interval collapses to that entry's level.
 */
module Resolver {
  import opened Sorting
  import opened PkmnData
  import opened Classify
  import opened HintFold
  import opened HintLaws

  /** The entries of `lv` whose level lies in `[lo, hi]`, in order. */
  function Candidates(lv: seq<LearnItem>, lo: int, hi: int): (c: seq<LearnItem>)
    ensures |c| <= |lv|
    ensures forall e :: e in c <==> e in lv && lo <= e.level <= hi
  {
    if lv == [] then []
    else
      var rest := Candidates(lv[..|lv| - 1], lo, hi);
      var last := lv[|lv| - 1];
      assert lv == lv[..|lv| - 1] + [last];
      if lo <= last.level <= hi then rest + [last] else rest
  }

  /** Each entry occurs among the candidates exactly as often as in the list when its level is in range, else never. */
  lemma {:induction false} CandidatesCount(lv: seq<LearnItem>, lo: int, hi: int)
    ensures forall e :: multiset(Candidates(lv, lo, hi))[e] == if lo <= e.level <= hi then multiset(lv)[e] else 0
  {
    if lv != [] {
      var n := |lv| - 1;
      CandidatesCount(lv[..n], lo, hi);
      assert lv == lv[..n] + [lv[n]];
    }
  }

  /** The move of this interval entry counts as known. */
  predicate IsKnown(t: Pokemon, x: LevelHint) {
    x.low == x.high || |Candidates(t.levelup, x.low, x.high)| == 1
  }

  /** The entry after `getKnownMoves` has looked at it. */
  function Resolve(t: Pokemon, x: LevelHint): (r: LevelHint)
    ensures r.move == x.move
    ensures r.low == r.high <==> IsKnown(t, x)
    ensures !IsKnown(t, x) || x.low == x.high ==> r == x
    ensures IsKnown(t, x) && x.low != x.high ==>
      exists e :: e in t.levelup && x.low <= e.level <= x.high && r.low == e.level
  {
    if x.low == x.high then x
    else
      var c := Candidates(t.levelup, x.low, x.high);
      if |c| == 1 then
        assert c[0] in c;
        x.(low := c[0].level, high := c[0].level)
      else x
  }

  /** Looking again changes nothing. */
  lemma ResolveIdempotent(t: Pokemon, x: LevelHint)
    ensures Resolve(t, Resolve(t, x)) == Resolve(t, x)
  {
  }

  /**
   * Under the interval invariant, resolving keeps the target's level inside the interval, and
   * a known move's interval is exactly the target's level.
   */
  lemma ResolveSound(t: Pokemon, x: LevelHint)
    requires x.move in MoveNames(t.levelup) && x.low <= LevelOf(t, x.move) <= x.high
    ensures Resolve(t, x).low <= LevelOf(t, x.move) <= Resolve(t, x).high
    ensures IsKnown(t, x) ==> Resolve(t, x).low == LevelOf(t, x.move) == Resolve(t, x).high
  {
    var e := t.levelup[LastNamed(t.levelup, x.move)];
    var c := Candidates(t.levelup, x.low, x.high);
    assert e in c;
    if |c| == 1 {
      assert c[0] == e;
    }
  }

  /** The names `getKnownMoves` collects from `hs`. */
  function KnownNames(t: Pokemon, hs: seq<LevelHint>): set<string> {
    if hs == [] then {}
    else
      var last := hs[|hs| - 1];
      KnownNames(t, hs[..|hs| - 1]) + if IsKnown(t, last) then {last.move} else {}
  }

  lemma {:induction false} KnownNamesIff(t: Pokemon, hs: seq<LevelHint>, m: string)
    ensures m in KnownNames(t, hs) <==> exists i :: 0 <= i < |hs| && hs[i].move == m && IsKnown(t, hs[i])
  {
    if hs != [] {
      var n := |hs| - 1;
      KnownNamesIff(t, hs[..n], m);
      if exists i :: 0 <= i < n && hs[..n][i].move == m && IsKnown(t, hs[..n][i]) {
        var i :| 0 <= i < n && hs[..n][i].move == m && IsKnown(t, hs[..n][i]);
        assert hs[i] == hs[..n][i];
      }
      if exists i :: 0 <= i < |hs| && hs[i].move == m && IsKnown(t, hs[i]) {
        var i :| 0 <= i < |hs| && hs[i].move == m && IsKnown(t, hs[i]);
        if i < n {
          assert hs[i] == hs[..n][i];
        }
      }
    }
  }

  /**
   * For a sane target, every entry of `getAllHints`' list, once resolved, still brackets the
   * target's level, and every move reported known has exactly the target's level.
   */
  lemma KnownMovesCorrect(t: Pokemon, gs: seq<Pokemon>)
    requires Sane(t)
    ensures forall x :: x in SortedHints(HintsOf(t, gs)) ==>
      && x.move in MoveNames(t.levelup)
      && Resolve(t, x).low <= LevelOf(t, x.move) <= Resolve(t, x).high
      && (IsKnown(t, x) ==> Resolve(t, x).low == LevelOf(t, x.move) == Resolve(t, x).high)
  {
    var h := HintsOf(t, gs);
    SortedHintsCorrect(h);
    IntervalInvariant(t, gs);
    forall x | x in SortedHints(h)
      ensures x.move in MoveNames(t.levelup)
      ensures Resolve(t, x).low <= LevelOf(t, x.move) <= Resolve(t, x).high
      ensures IsKnown(t, x) ==> Resolve(t, x).low == LevelOf(t, x.move) == Resolve(t, x).high
    {
      ResolveSound(t, x);
    }
  }
}
