/**
 * What the hint folder guarantees: every entry of every guess is folded in once per guess
 * with its true status, the interval map and the four sets are disjoint, the target's level
 * stays inside every interval, a new guess only narrows, a repeated guess changes nothing,
 * and the returned list is the interval map sorted by key level.
 */
module HintLaws {
  import opened Sorting
  import opened PkmnData
  import opened Classify
  import opened HintFold

  /** The update carries the status the classifier gives its entry. */
  predicate Classified(t: Pokemon, u: Update) {
    u.status == MatchTypeOf(t, u.item)
  }

  /** The target's level for a move it learns by level-up (the last entry, if names repeat). */
  function LevelOf(t: Pokemon, m: string): int
    requires m in MoveNames(t.levelup)
  {
    t.levelup[LastNamed(t.levelup, m)].level
  }

  /** What the interval invariant assumes of the target: distinct level-up names, levels in [0, 255]. */
  predicate Sane(t: Pokemon) {
    && DistinctMoves(t.levelup)
    && forall e :: e in t.levelup ==> 0 <= e.level <= 255
  }

  // ----- membership -----

  lemma StatusUpdatesMembers(s: MatchType, moves: seq<LearnItem>)
    ensures forall u :: u in StatusUpdates(s, moves) <==> u.status == s && u.item in moves
  {
    var us := StatusUpdates(s, moves);
    forall u: Update | u.status == s && u.item in moves
      ensures u in us
    {
      var i :| 0 <= i < |moves| && moves[i] == u.item;
      assert us[i] == u;
    }
  }

  lemma {:induction false} FlatUpdatesMembers(info: HintInfo, n: nat)
    requires Grouped(info) && n <= |info.order|
    ensures forall u :: u in FlatUpdates(info, n) <==> u.status in info.order[..n] && u.item in info.groups[u.status]
  {
    if n > 0 {
      FlatUpdatesMembers(info, n - 1);
      StatusUpdatesMembers(info.order[n - 1], info.groups[info.order[n - 1]]);
      assert info.order[..n] == info.order[..n - 1] + [info.order[n - 1]];
    }
  }

  /** A guess contributes exactly its level-up entries, each with its status. */
  lemma GuessUpdatesExact(t: Pokemon, g: Pokemon)
    ensures forall u :: u in GuessUpdates(t, g) <==> u.item in g.levelup && Classified(t, u)
  {
    var info := HintInfoOf(t, g.levelup);
    HintInfoGroups(t, g.levelup);
    FlatUpdatesMembers(info, |info.order|);
    assert info.order[..|info.order|] == info.order;
    forall s
      ensures s in info.groups ==> forall e :: e in info.groups[s] <==> e in g.levelup && MatchTypeOf(t, e) == s
    {
      WithStatusMembers(t, g.levelup, s);
    }
    forall u: Update | u.item in g.levelup && Classified(t, u)
      ensures u.status in info.groups
    {
      WithStatusMembers(t, g.levelup, u.status);
      assert u.item in WithStatus(t, g.levelup, u.status);
    }
  }

  lemma {:induction false} FlatMapMembers<A, B>(xs: seq<A>, f: A -> seq<B>, y: B)
    ensures y in FlatMap(xs, f) <==> exists i :: 0 <= i < |xs| && y in f(xs[i])
  {
    if xs != [] {
      var n := |xs| - 1;
      FlatMapMembers(xs[..n], f, y);
      if y in FlatMap(xs[..n], f) {
        var i :| 0 <= i < n && y in f(xs[..n][i]);
        assert xs[..n][i] == xs[i];
      }
      if exists i :: 0 <= i < |xs| && y in f(xs[i]) {
        var i :| 0 <= i < |xs| && y in f(xs[i]);
        if i < n {
          assert xs[..n][i] == xs[i];
        }
      }
    }
  }

  /** The fold sees exactly the entries of the guesses, each with its status. */
  lemma AllUpdatesExact(t: Pokemon, gs: seq<Pokemon>, u: Update)
    ensures u in AllUpdates(t, gs) <==> Classified(t, u) && exists i :: 0 <= i < |gs| && u.item in gs[i].levelup
  {
    FlatMapMembers(gs, g => GuessUpdates(t, g), u);
    forall i | 0 <= i < |gs| {
      GuessUpdatesExact(t, gs[i]);
    }
  }

  /** Every update of the fold is classified. */
  lemma AllClassified(t: Pokemon, gs: seq<Pokemon>)
    ensures forall u :: u in AllUpdates(t, gs) ==> Classified(t, u)
  {
    forall u | u in AllUpdates(t, gs) {
      AllUpdatesExact(t, gs, u);
    }
  }

  // ----- disjointness -----

  /** Each name sits where its name alone puts it. */
  ghost predicate Consistent(t: Pokemon, h: Hints) {
    && (forall m :: m in h.bounds ==> m in MoveNames(t.levelup))
    && (forall m :: m in h.cats.egg ==> m !in MoveNames(t.levelup) && BucketOf(t, m) == ByEgg)
    && (forall m :: m in h.cats.tutor ==> m !in MoveNames(t.levelup) && BucketOf(t, m) == ByTutor)
    && (forall m :: m in h.cats.tm ==> m !in MoveNames(t.levelup) && BucketOf(t, m) == ByTM)
    && (forall m :: m in h.cats.noMatch ==> m !in MoveNames(t.levelup) && BucketOf(t, m) == NoMatch)
  }

  /** The interval keys and the four sets are pairwise disjoint. */
  ghost predicate Disjoint(h: Hints) {
    && h.bounds.Keys !! h.cats.egg && h.bounds.Keys !! h.cats.tutor
    && h.bounds.Keys !! h.cats.tm && h.bounds.Keys !! h.cats.noMatch
    && h.cats.egg !! h.cats.tutor && h.cats.egg !! h.cats.tm && h.cats.egg !! h.cats.noMatch
    && h.cats.tutor !! h.cats.tm && h.cats.tutor !! h.cats.noMatch
    && h.cats.tm !! h.cats.noMatch
  }

  lemma StepConsistent(t: Pokemon, h: Hints, u: Update)
    requires Consistent(t, h) && Classified(t, u)
    ensures Consistent(t, Step(h, u))
  {
  }

  lemma {:induction false} ApplyConsistent(t: Pokemon, h: Hints, us: seq<Update>)
    requires Consistent(t, h) && forall u :: u in us ==> Classified(t, u)
    ensures Consistent(t, Apply(h, us))
  {
    if us != [] {
      var n := |us| - 1;
      assert forall u :: u in us[..n] ==> u in us;
      ApplyConsistent(t, h, us[..n]);
      StepConsistent(t, Apply(h, us[..n]), us[n]);
    }
  }

  /** A move is in at most one of the interval map and the four sets. */
  lemma HintsDisjoint(t: Pokemon, gs: seq<Pokemon>)
    ensures Consistent(t, HintsOf(t, gs))
    ensures Disjoint(HintsOf(t, gs))
  {
    AllClassified(t, gs);
    ApplyConsistent(t, NoHints, AllUpdates(t, gs));
  }

  // ----- the interval invariant -----

  /** With distinct names, a classified level update says how the target's level compares. */
  lemma ClassifiedTruthful(t: Pokemon, u: Update)
    requires DistinctMoves(t.levelup) && Classified(t, u) && IsLevelStatus(u.status)
    ensures u.item.move in MoveNames(t.levelup)
    ensures u.status == Match ==> LevelOf(t, u.item.move) == u.item.level
    ensures u.status == LevelHigher ==> LevelOf(t, u.item.move) > u.item.level
    ensures u.status == LevelLower ==> LevelOf(t, u.item.move) < u.item.level
  {
    var e := t.levelup[LastNamed(t.levelup, u.item.move)];
    ClassifyByLevel(t, e, u.item);
  }

  /** Every interval holds the target's level for its move. */
  ghost predicate Bracketed(t: Pokemon, h: Hints) {
    forall m :: m in h.bounds ==>
      m in MoveNames(t.levelup) && h.bounds[m].low <= LevelOf(t, m) <= h.bounds[m].high
  }

  lemma StepBracketed(t: Pokemon, h: Hints, u: Update)
    requires Sane(t) && Bracketed(t, h) && Classified(t, u)
    ensures Bracketed(t, Step(h, u))
  {
    if IsLevelStatus(u.status) {
      ClassifiedTruthful(t, u);
      var m := u.item.move;
      var e := t.levelup[LastNamed(t.levelup, m)];
      assert e in t.levelup;
    }
  }

  lemma {:induction false} ApplyBracketed(t: Pokemon, h: Hints, us: seq<Update>)
    requires Sane(t) && Bracketed(t, h) && forall u :: u in us ==> Classified(t, u)
    ensures Bracketed(t, Apply(h, us))
  {
    if us != [] {
      var n := |us| - 1;
      assert forall u :: u in us[..n] ==> u in us;
      ApplyBracketed(t, h, us[..n]);
      StepBracketed(t, Apply(h, us[..n]), us[n]);
    }
  }

  /**
   * The interval invariant: for a target with distinct level-up names and levels in
   * [0, 255], every interval contains the target's level, so none is empty.
   */
  lemma IntervalInvariant(t: Pokemon, gs: seq<Pokemon>)
    requires Sane(t)
    ensures Bracketed(t, HintsOf(t, gs))
    ensures forall m :: m in HintsOf(t, gs).bounds ==> HintsOf(t, gs).bounds[m].low <= HintsOf(t, gs).bounds[m].high
  {
    AllClassified(t, gs);
    ApplyBracketed(t, NoHints, AllUpdates(t, gs));
  }

  // ----- monotonicity -----

  /** `h2` knows at least what `h1` knows: same keys first, narrower intervals, larger sets. */
  ghost predicate Narrows(h1: Hints, h2: Hints) {
    && h1.order <= h2.order
    && (forall m :: m in h1.bounds ==>
          m in h2.bounds && h1.bounds[m].low <= h2.bounds[m].low && h2.bounds[m].high <= h1.bounds[m].high)
    && h1.cats.egg <= h2.cats.egg && h1.cats.tutor <= h2.cats.tutor
    && h1.cats.tm <= h2.cats.tm && h1.cats.noMatch <= h2.cats.noMatch
  }

  lemma StepNarrows(t: Pokemon, h: Hints, u: Update)
    requires Sane(t) && Bracketed(t, h) && Classified(t, u)
    ensures Narrows(h, Step(h, u))
  {
    var r := Step(h, u);
    var m := u.item.move;
    StepEffect(h, u);
    if IsLevelStatus(u.status) {
      ClassifiedTruthful(t, u);
    }
    forall n | n in h.bounds
      ensures n in r.bounds && h.bounds[n].low <= r.bounds[n].low && r.bounds[n].high <= h.bounds[n].high
    {
      if n == m && IsLevelStatus(u.status) {
        assert h.bounds[m].low <= LevelOf(t, m) <= h.bounds[m].high;
        assert Existing(h, m) == h.bounds[m];
      } else {
        assert Existing(r, n) == Existing(h, n);
      }
    }
  }

  lemma {:induction false} ApplyNarrows(t: Pokemon, h: Hints, us: seq<Update>)
    requires Sane(t) && Bracketed(t, h) && forall u :: u in us ==> Classified(t, u)
    ensures Narrows(h, Apply(h, us))
  {
    if us != [] {
      var n := |us| - 1;
      assert forall u :: u in us[..n] ==> u in us;
      ApplyNarrows(t, h, us[..n]);
      ApplyBracketed(t, h, us[..n]);
      StepNarrows(t, Apply(h, us[..n]), us[n]);
    }
  }

  lemma SingleGuess(t: Pokemon, g: Pokemon)
    ensures AllUpdates(t, [g]) == GuessUpdates(t, g)
  {
    var f := g' => GuessUpdates(t, g');
    assert [g][..0] == [] && [g][0] == g;
    assert FlatMap([g], f) == FlatMap([g][..0], f) + f([g][0]);
  }

  /** The hints after one more guess are the old hints with that guess's updates folded in. */
  lemma HintsOfSnoc(t: Pokemon, gs: seq<Pokemon>, g: Pokemon)
    ensures HintsOf(t, gs + [g]) == Apply(HintsOf(t, gs), GuessUpdates(t, g))
  {
    FlatMapAppend(gs, [g], g' => GuessUpdates(t, g'));
    SingleGuess(t, g);
    ApplyAppend(NoHints, AllUpdates(t, gs), GuessUpdates(t, g));
  }

  /** Adding a guess only narrows intervals and grows the sets. */
  lemma GuessNarrows(t: Pokemon, gs: seq<Pokemon>, g: Pokemon)
    requires Sane(t)
    ensures Narrows(HintsOf(t, gs), HintsOf(t, gs + [g]))
  {
    HintsOfSnoc(t, gs, g);
    IntervalInvariant(t, gs);
    GuessUpdatesExact(t, g);
    ApplyNarrows(t, HintsOf(t, gs), GuessUpdates(t, g));
  }

  // ----- idempotence and repeated guesses -----

  /** Each update is idempotent. */
  lemma StepIdempotent(h: Hints, u: Update)
    ensures Step(Step(h, u), u) == Step(h, u)
  {
  }

  /** `h` already reflects `u`. */
  ghost predicate Absorbs(h: Hints, u: Update) {
    Step(h, u) == h
  }

  /** What it takes for `h` to reflect `u`, status by status. */
  ghost predicate Reflects(h: Hints, u: Update) {
    var m := u.item.move;
    var l := u.item.level;
    match u.status
    case Match => m in h.bounds && h.bounds[m] == Range(l, l)
    case LevelHigher => m in h.bounds && h.bounds[m].low >= l
    case LevelLower => m in h.bounds && h.bounds[m].high <= l
    case ByEgg => m in h.cats.egg
    case ByTutor => m in h.cats.tutor
    case ByTM => m in h.cats.tm
    case NoMatch => m in h.cats.noMatch
  }

  lemma AbsorbsIff(h: Hints, u: Update)
    ensures Absorbs(h, u) <==> Reflects(h, u)
  {
    var m := u.item.move;
    if IsLevelStatus(u.status) && m !in h.bounds {
      assert |Step(h, u).order| == |h.order| + 1;
    }
    if Reflects(h, u) && IsLevelStatus(u.status) {
      assert Step(h, u).bounds == h.bounds;
    }
  }

  lemma StepKeepsAbsorbed(t: Pokemon, h: Hints, u: Update, v: Update)
    requires DistinctMoves(t.levelup) && Classified(t, u) && Classified(t, v) && Absorbs(h, u)
    ensures Absorbs(Step(h, v), u)
  {
    AbsorbsIff(h, u);
    AbsorbsIff(Step(h, v), u);
    if IsLevelStatus(u.status) {
      ClassifiedTruthful(t, u);
    }
    if IsLevelStatus(v.status) {
      ClassifiedTruthful(t, v);
    }
  }

  lemma {:induction false} ApplyKeepsAbsorbed(t: Pokemon, h: Hints, us: seq<Update>, vs: seq<Update>)
    requires DistinctMoves(t.levelup)
    requires forall u :: u in us ==> Classified(t, u) && Absorbs(h, u)
    requires forall v :: v in vs ==> Classified(t, v)
    ensures forall u :: u in us ==> Absorbs(Apply(h, vs), u)
  {
    if vs != [] {
      var n := |vs| - 1;
      assert forall v :: v in vs[..n] ==> v in vs;
      ApplyKeepsAbsorbed(t, h, us, vs[..n]);
      forall u | u in us {
        StepKeepsAbsorbed(t, Apply(h, vs[..n]), u, vs[n]);
      }
    }
  }

  lemma {:induction false} ApplyAbsorbs(t: Pokemon, h: Hints, us: seq<Update>)
    requires DistinctMoves(t.levelup) && forall u :: u in us ==> Classified(t, u)
    ensures forall u :: u in us ==> Absorbs(Apply(h, us), u)
  {
    if us != [] {
      var n := |us| - 1;
      var before := Apply(h, us[..n]);
      assert forall u :: u in us[..n] ==> u in us;
      ApplyAbsorbs(t, h, us[..n]);
      forall u | u in us
        ensures Absorbs(Apply(h, us), u)
      {
        if u == us[n] {
          StepIdempotent(before, u);
        } else {
          assert u in us[..n] by {
            var i :| 0 <= i < |us| && us[i] == u;
            assert i < n && us[..n][i] == u;
          }
          StepKeepsAbsorbed(t, before, u, us[n]);
        }
      }
    }
  }

  lemma {:induction false} ApplyAbsorbed(h: Hints, us: seq<Update>)
    requires forall u :: u in us ==> Absorbs(h, u)
    ensures Apply(h, us) == h
  {
    if us != [] {
      var n := |us| - 1;
      assert forall u :: u in us[..n] ==> u in us;
      assert us[n] in us;
      ApplyAbsorbed(h, us[..n]);
    }
  }

  /**
   * Repeated guesses are not de-duplicated, but with distinct target level-up names a guess
   * made again, after any guesses in between, changes nothing.
   */
  lemma RepeatedGuessNoEffect(t: Pokemon, gs: seq<Pokemon>, g: Pokemon, rest: seq<Pokemon>)
    requires DistinctMoves(t.levelup)
    ensures HintsOf(t, gs + [g] + rest + [g]) == HintsOf(t, gs + [g] + rest)
  {
    var f := g' => GuessUpdates(t, g');
    var a, gu, r := AllUpdates(t, gs), GuessUpdates(t, g), AllUpdates(t, rest);
    SingleGuess(t, g);
    FlatMapAppend(gs, [g], f);
    FlatMapAppend(gs + [g], rest, f);
    FlatMapAppend(gs + [g] + rest, [g], f);
    assert AllUpdates(t, gs + [g] + rest) == a + gu + r;
    assert AllUpdates(t, gs + [g] + rest + [g]) == a + gu + r + gu;
    GuessUpdatesExact(t, g);
    AllClassified(t, rest);
    var afterG := Apply(Apply(NoHints, a), gu);
    ApplyAbsorbs(t, Apply(NoHints, a), gu);
    ApplyKeepsAbsorbed(t, afterG, gu, r);
    ApplyAbsorbed(Apply(afterG, r), gu);
    ApplyAppend(NoHints, a, gu);
    ApplyAppend(NoHints, a + gu, r);
    ApplyAppend(NoHints, a + gu + r, gu);
  }

  // ----- a guess repeated back to back -----

  /**
   * What the level updates for one move do to its interval, as one function of the interval
   * it starts from: an optional pin (the last Match), then a raised low end and a lowered high end.
   */
  datatype Effect = Effect(pinned: bool, pin: Range, raised: bool, floor: int, lowered: bool, ceiling: int)

  const NoEffect: Effect := Effect(false, Unbounded, false, 0, false, 0)

  function Eval(e: Effect, r: Range): Range {
    var base := if e.pinned then e.pin else r;
    Range(if e.raised then Max(e.floor, base.low) else base.low,
          if e.lowered then Min(e.ceiling, base.high) else base.high)
  }

  /** The effect followed by one more update. */
  function Then(e: Effect, u: Update): Effect {
    match u.status
    case Match => Effect(true, Range(u.item.level, u.item.level), false, 0, false, 0)
    case LevelHigher => e.(raised := true, floor := if e.raised then Max(u.item.level, e.floor) else u.item.level)
    case LevelLower => e.(lowered := true, ceiling := if e.lowered then Min(u.item.level, e.ceiling) else u.item.level)
    case _ => e
  }

  /** The effect of the updates for move `m`, first to last. */
  function EffectOn(us: seq<Update>, m: string): Effect {
    if us == [] then NoEffect
    else
      var e := EffectOn(us[..|us| - 1], m);
      if us[|us| - 1].item.move == m then Then(e, us[|us| - 1]) else e
  }

  /** The moves of the level updates. */
  function LevelMoves(us: seq<Update>): set<string> {
    if us == [] then {}
    else
      var u := us[|us| - 1];
      LevelMoves(us[..|us| - 1]) + if IsLevelStatus(u.status) then {u.item.move} else {}
  }

  /** The moves of the updates with categorical status `s`. */
  function CatMoves(us: seq<Update>, s: MatchType): set<string> {
    if us == [] then {}
    else
      var u := us[|us| - 1];
      CatMoves(us[..|us| - 1], s) + if u.status == s then {u.item.move} else {}
  }

  /** Every effect is idempotent: a pin is a constant, and raising and lowering are max and min. */
  lemma EvalIdempotent(e: Effect, r: Range)
    ensures Eval(e, Eval(e, r)) == Eval(e, r)
  {
  }

  /** One update extends the effect on its own move and leaves the other moves' effects alone. */
  lemma StepBounds(h: Hints, u: Update, m: string, e: Effect, r: Range)
    requires Existing(h, m) == Eval(e, r)
    ensures m in Step(h, u).bounds <==> m in h.bounds || (IsLevelStatus(u.status) && u.item.move == m)
    ensures Existing(Step(h, u), m) == Eval(if u.item.move == m then Then(e, u) else e, r)
  {
    StepEffect(h, u);
  }

  /** The interval map after the updates: exactly the old keys and the level moves, each interval the move's effect. */
  lemma {:induction false} ApplyBounds(h: Hints, us: seq<Update>, m: string)
    ensures m in Apply(h, us).bounds <==> m in h.bounds || m in LevelMoves(us)
    ensures Existing(Apply(h, us), m) == Eval(EffectOn(us, m), Existing(h, m))
    decreases |us|
  {
    if us != [] {
      var n := |us| - 1;
      ApplyBounds(h, us[..n], m);
      StepBounds(Apply(h, us[..n]), us[n], m, EffectOn(us[..n], m), Existing(h, m));
    }
  }

  /** Updates whose level moves already have intervals leave the key order alone. */
  lemma {:induction false} ApplyOrderKept(h: Hints, us: seq<Update>)
    requires LevelMoves(us) <= h.bounds.Keys
    ensures Apply(h, us).order == h.order
    decreases |us|
  {
    if us != [] {
      var n := |us| - 1;
      ApplyOrderKept(h, us[..n]);
      ApplyBounds(h, us[..n], us[n].item.move);
    }
  }

  /** A categorical set after the updates: the old set and the moves given that status. */
  lemma {:induction false} ApplyCats(h: Hints, us: seq<Update>, s: MatchType)
    requires !IsLevelStatus(s)
    ensures CatSet(Apply(h, us).cats, s) == CatSet(h.cats, s) + CatMoves(us, s)
    decreases |us|
  {
    if us != [] {
      var n := |us| - 1;
      ApplyCats(h, us[..n], s);
      StepEffect(Apply(h, us[..n]), us[n]);
    }
  }

  /** Folding the same updates a second time changes nothing, whatever the target. */
  lemma ApplyTwice(h: Hints, us: seq<Update>)
    ensures Apply(Apply(h, us), us) == Apply(h, us)
  {
    var a := Apply(h, us);
    var aa := Apply(a, us);
    forall m: string
      ensures (m in aa.bounds <==> m in a.bounds) && Existing(aa, m) == Existing(a, m)
    {
      ApplyBounds(h, us, m);
      ApplyBounds(a, us, m);
      EvalIdempotent(EffectOn(us, m), Existing(h, m));
    }
    assert aa.bounds.Keys == a.bounds.Keys;
    assert forall m :: m in a.bounds ==> aa.bounds[m] == Existing(aa, m) == Existing(a, m) == a.bounds[m];
    forall m | m in LevelMoves(us)
      ensures m in a.bounds
    {
      ApplyBounds(h, us, m);
    }
    ApplyOrderKept(a, us);
    forall s | !IsLevelStatus(s)
      ensures CatSet(aa.cats, s) == CatSet(a.cats, s)
    {
      ApplyCats(h, us, s);
      ApplyCats(a, us, s);
    }
    assert CatSet(aa.cats, ByEgg) == CatSet(a.cats, ByEgg) && CatSet(aa.cats, ByTutor) == CatSet(a.cats, ByTutor);
    assert CatSet(aa.cats, ByTM) == CatSet(a.cats, ByTM) && CatSet(aa.cats, NoMatch) == CatSet(a.cats, NoMatch);
  }

  /** A guess made twice in a row changes nothing the second time, for every target. */
  lemma RepeatedGuessBackToBack(t: Pokemon, gs: seq<Pokemon>, g: Pokemon)
    ensures HintsOf(t, gs + [g, g]) == HintsOf(t, gs + [g])
  {
    assert gs + [g, g] == (gs + [g]) + [g];
    HintsOfSnoc(t, gs + [g], g);
    HintsOfSnoc(t, gs, g);
    ApplyTwice(HintsOf(t, gs), GuessUpdates(t, g));
  }

  // ----- the sorted interval list -----

  /**
   * `getAllHints`' list holds exactly the interval-map entries, sorted ascending by key level,
   * entries with equal key levels in the map's insertion order.
   */
  lemma SortedHintsCorrect(h: Hints)
    requires WellFormed(h)
    ensures SortedBy(SortedHints(h), HintKeyLevel)
    ensures multiset(SortedHints(h)) == multiset(Entries(h))
    ensures |SortedHints(h)| == |h.order|
    ensures forall x :: x in SortedHints(h) <==> x.move in h.bounds && h.bounds[x.move] == Range(x.low, x.high)
    ensures forall k :: WithKey(SortedHints(h), HintKeyLevel, k) == WithKey(Entries(h), HintKeyLevel, k)
  {
    var es := Entries(h);
    forall k {
      InsertionSortStable(es, HintKeyLevel, k);
    }
    assert |multiset(SortedHints(h))| == |multiset(es)|;
    forall x: LevelHint
      ensures x in SortedHints(h) <==> x in es
    {
      assert x in SortedHints(h) <==> x in multiset(SortedHints(h));
      assert x in es <==> x in multiset(es);
    }
    forall x: LevelHint | x.move in h.bounds && h.bounds[x.move] == Range(x.low, x.high)
      ensures x in es
    {
      var i :| 0 <= i < |h.order| && h.order[i] == x.move;
      assert es[i] == x;
    }
  }
}
