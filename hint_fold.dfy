/**
 * The hint folder of src/game_state.ts: every guess's classified level-up entries folded
 * into level intervals per move and four sets of move names, and the sorted interval list.
 */
module HintFold {
  import opened Sorting
  import opened PkmnData
  import opened Classify

  /** `[low, high]`: what the guesses so far say about the target's level for one move. */
  datatype Range = Range(low: int, high: int)

  /** The categorical sets: moves the target learns by egg, tutor, machine, or not at all. */
  datatype Categories = Categories(egg: set<string>, tutor: set<string>, tm: set<string>, noMatch: set<string>)

  /**
   * The folded hints: the interval map (with its keys in insertion order, which a map
   * keeps when a key is set again) and the categorical sets.
   */
  datatype Hints = Hints(order: seq<string>, bounds: map<string, Range>, cats: Categories)

  /** `[move, low, high]`: one entry of the interval list. */
  datatype LevelHint = LevelHint(move: string, low: int, high: int)

  /** One classified entry to fold in. */
  datatype Update = Update(status: MatchType, item: LearnItem)

  const NoCategories: Categories := Categories({}, {}, {}, {})
  const NoHints: Hints := Hints([], map[], NoCategories)

  /** The interval a move starts from before any level hint. */
  const Unbounded: Range := Range(0, 255)

  function Max(a: int, b: int): int { if a >= b then a else b }
  function Min(a: int, b: int): int { if a <= b then a else b }

  /** The order lists each key of the interval map exactly once. */
  ghost predicate WellFormed(h: Hints) {
    && (forall i, j :: 0 <= i < j < |h.order| ==> h.order[i] != h.order[j])
    && (forall m :: m in h.bounds <==> m in h.order)
  }

  /** The move's current interval, `[0, 255]` when it has none. */
  function Existing(h: Hints, m: string): Range {
    if m in h.bounds then h.bounds[m] else Unbounded
  }

  /** Sets a key of the interval map; a new key goes last in the order, a known one keeps its place. */
  function SetBound(h: Hints, m: string, r: Range): Hints {
    h.(order := if m in h.bounds then h.order else h.order + [m], bounds := h.bounds[m := r])
  }

  /** Adds a move name to the set of a categorical status. */
  function AddTo(c: Categories, s: MatchType, m: string): Categories
    requires !IsLevelStatus(s)
  {
    match s
    case ByEgg => c.(egg := c.egg + {m})
    case ByTutor => c.(tutor := c.tutor + {m})
    case ByTM => c.(tm := c.tm + {m})
    case NoMatch => c.(noMatch := c.noMatch + {m})
  }

  /** The set of one categorical status. */
  function CatSet(c: Categories, s: MatchType): set<string>
    requires !IsLevelStatus(s)
  {
    match s
    case ByEgg => c.egg
    case ByTutor => c.tutor
    case ByTM => c.tm
    case NoMatch => c.noMatch
  }

  /** `catMap` as `getAllHints` returns it: a status is a key once a move has been added to its set. */
  function CatMap(c: Categories): (cm: map<MatchType, set<string>>)
    ensures forall s :: s in cm <==> !IsLevelStatus(s) && CatSet(c, s) != {}
    ensures forall s :: s in cm ==> cm[s] == CatSet(c, s)
  {
    map s | s in [ByEgg, ByTutor, ByTM, NoMatch] && CatSet(c, s) != {} :: CatSet(c, s)
  }

  /** One case of the `switch` in `getAllHints`. */
  function Step(h: Hints, u: Update): (r: Hints)
    ensures WellFormed(h) ==> WellFormed(r)
  {
    var level := u.item.level;
    var move := u.item.move;
    match u.status
    case Match => SetBound(h, move, Range(level, level))
    case LevelHigher =>
      var existing := Existing(h, move);
      SetBound(h, move, Range(Max(level, existing.low), existing.high))
    case LevelLower =>
      var existing := Existing(h, move);
      SetBound(h, move, Range(existing.low, Min(level, existing.high)))
    case _ => h.(cats := AddTo(h.cats, u.status, move))
  }

  /**
   * What one update does: level statuses set only their move's interval (a Match pins it, a
   * LevelHigher raises the low end, a LevelLower lowers the high end, from `[0, 255]` for a
   * new move), categorical statuses touch only the sets, and no other move changes.
   */
  lemma StepEffect(h: Hints, u: Update)
    ensures forall n :: n != u.item.move ==> (n in Step(h, u).bounds <==> n in h.bounds) && Existing(Step(h, u), n) == Existing(h, n)
    ensures IsLevelStatus(u.status) ==> u.item.move in Step(h, u).bounds && Step(h, u).cats == h.cats
    ensures !IsLevelStatus(u.status) ==> Step(h, u).order == h.order && Step(h, u).bounds == h.bounds
    ensures IsLevelStatus(u.status) ==>
      Step(h, u).order == if u.item.move in h.bounds then h.order else h.order + [u.item.move]
    ensures !IsLevelStatus(u.status) ==>
      && CatSet(Step(h, u).cats, u.status) == CatSet(h.cats, u.status) + {u.item.move}
      && forall s :: !IsLevelStatus(s) && s != u.status ==> CatSet(Step(h, u).cats, s) == CatSet(h.cats, s)
    ensures u.status == Match ==> Step(h, u).bounds[u.item.move] == Range(u.item.level, u.item.level)
    ensures u.status == LevelHigher ==>
      Step(h, u).bounds[u.item.move] == Range(Max(u.item.level, Existing(h, u.item.move).low), Existing(h, u.item.move).high)
    ensures u.status == LevelLower ==>
      Step(h, u).bounds[u.item.move] == Range(Existing(h, u.item.move).low, Min(u.item.level, Existing(h, u.item.move).high))
  {
  }

  /** Folds a sequence of updates, first to last. */
  function Apply(h: Hints, us: seq<Update>): (r: Hints)
    ensures WellFormed(h) ==> WellFormed(r)
  {
    if us == [] then h else Step(Apply(h, us[..|us| - 1]), us[|us| - 1])
  }

  lemma {:induction false} ApplyAppend(h: Hints, us: seq<Update>, vs: seq<Update>)
    ensures Apply(h, us + vs) == Apply(Apply(h, us), vs)
    decreases |vs|
  {
    if vs == [] {
      assert us + vs == us;
    } else {
      var n := |vs| - 1;
      assert (us + vs)[..|us + vs| - 1] == us + vs[..n];
      ApplyAppend(h, us, vs[..n]);
    }
  }

  /** The entries of `items` with status `s`, in order. */
  function WithStatus(t: Pokemon, items: seq<LearnItem>, s: MatchType): seq<LearnItem> {
    if items == [] then []
    else
      var rest := WithStatus(t, items[..|items| - 1], s);
      if MatchTypeOf(t, items[|items| - 1]) == s then rest + [items[|items| - 1]] else rest
  }

  lemma {:induction false} WithStatusMembers(t: Pokemon, items: seq<LearnItem>, s: MatchType)
    ensures forall e :: e in WithStatus(t, items, s) <==> e in items && MatchTypeOf(t, e) == s
  {
    if items != [] {
      var n := |items| - 1;
      WithStatusMembers(t, items[..n], s);
      assert items == items[..n] + [items[n]];
    }
  }

  /** The result of `getAllHintInfo`: statuses in first-appearance order, each with its entries. */
  datatype HintInfo = HintInfo(order: seq<MatchType>, groups: map<MatchType, seq<LearnItem>>)

  /** `getAllHintInfo`: groups a creature's level-up entries by their status. */
  function HintInfoOf(t: Pokemon, items: seq<LearnItem>): HintInfo {
    if items == [] then HintInfo([], map[])
    else
      var entry := items[|items| - 1];
      Record(HintInfoOf(t, items[..|items| - 1]), MatchTypeOf(t, entry), entry)
  }

  /** Appends an entry to its status's group, opening the group when the status is new. */
  function Record(info: HintInfo, status: MatchType, entry: LearnItem): HintInfo {
    if status in info.groups then HintInfo(info.order, info.groups[status := info.groups[status] + [entry]])
    else HintInfo(info.order + [status], info.groups[status := [entry]])
  }

  /**
   * The grouping keys exactly the statuses that occur, each once in first-appearance order,
   * with its entries in their original order.
   */
  ghost predicate GroupsOf(t: Pokemon, items: seq<LearnItem>, info: HintInfo) {
    && (forall s :: s in info.groups <==> s in info.order)
    && (forall i, j :: 0 <= i < j < |info.order| ==> info.order[i] != info.order[j])
    && (forall s :: s in info.groups <==> WithStatus(t, items, s) != [])
    && (forall s :: s in info.groups ==> info.groups[s] == WithStatus(t, items, s))
  }

  lemma {:induction false} HintInfoGroups(t: Pokemon, items: seq<LearnItem>)
    ensures GroupsOf(t, items, HintInfoOf(t, items))
  {
    if items != [] {
      var n := |items| - 1;
      var prefix, e := items[..n], items[n];
      HintInfoGroups(t, prefix);
      var prev := HintInfoOf(t, prefix);
      var status := MatchTypeOf(t, e);
      forall s
        ensures WithStatus(t, items, s) == WithStatus(t, prefix, s) + if status == s then [e] else []
      {
      }
      var info := HintInfoOf(t, items);
      assert status !in prev.groups ==> status !in prev.order;
    }
  }

  /** Every key of the grouping is in its order. */
  ghost predicate Grouped(info: HintInfo) {
    forall s :: s in info.order ==> s in info.groups
  }

  lemma HintInfoGrouped(t: Pokemon, items: seq<LearnItem>)
    ensures Grouped(HintInfoOf(t, items))
  {
    HintInfoGroups(t, items);
  }

  /** The updates for one status's entries. */
  function StatusUpdates(s: MatchType, moves: seq<LearnItem>): (us: seq<Update>)
    ensures |us| == |moves|
    ensures forall i :: 0 <= i < |moves| ==> us[i] == Update(s, moves[i])
  {
    seq(|moves|, i requires 0 <= i < |moves| => Update(s, moves[i]))
  }

  /** The updates of the first `n` statuses of a grouping, in the order `getAllHints` visits them. */
  function FlatUpdates(info: HintInfo, n: nat): seq<Update>
    requires Grouped(info) && n <= |info.order|
  {
    if n == 0 then []
    else FlatUpdates(info, n - 1) + StatusUpdates(info.order[n - 1], info.groups[info.order[n - 1]])
  }

  /** The updates one guess contributes. */
  function GuessUpdates(t: Pokemon, g: Pokemon): seq<Update> {
    HintInfoGrouped(t, g.levelup);
    var info := HintInfoOf(t, g.levelup);
    FlatUpdates(info, |info.order|)
  }

  /** The concatenation of `f` over `xs`, first to last. */
  function FlatMap<A, B>(xs: seq<A>, f: A -> seq<B>): seq<B> {
    if xs == [] then [] else FlatMap(xs[..|xs| - 1], f) + f(xs[|xs| - 1])
  }

  lemma {:induction false} FlatMapAppend<A, B>(xs: seq<A>, ys: seq<A>, f: A -> seq<B>)
    ensures FlatMap(xs + ys, f) == FlatMap(xs, f) + FlatMap(ys, f)
    decreases |ys|
  {
    if ys == [] {
      assert xs + ys == xs;
    } else {
      var n := |ys| - 1;
      assert (xs + ys)[..|xs + ys| - 1] == xs + ys[..n];
      FlatMapAppend(xs, ys[..n], f);
    }
  }

  /** The updates of all guesses, guess by guess. */
  function AllUpdates(t: Pokemon, gs: seq<Pokemon>): seq<Update> {
    FlatMap(gs, g => GuessUpdates(t, g))
  }

  /** The hints `getAllHints` folds from the guesses, recomputed from the whole list. */
  function HintsOf(t: Pokemon, gs: seq<Pokemon>): (h: Hints)
    ensures WellFormed(h)
  {
    Apply(NoHints, AllUpdates(t, gs))
  }

  /** `getHintKeyLevel`: the low end when it is above zero, else the high end. */
  function HintKeyLevel(x: LevelHint): (k: int)
    ensures k == x.low || k == x.high
    ensures x.low <= x.high ==> x.low <= k <= x.high
  {
    if x.low > 0 then x.low else x.high
  }

  /** The interval list before sorting, in the map's insertion order. */
  function EntriesOf(order: seq<string>, bounds: map<string, Range>): (es: seq<LevelHint>)
    requires forall m :: m in order ==> m in bounds
    ensures |es| == |order|
    ensures forall i :: 0 <= i < |order| ==>
      es[i] == LevelHint(order[i], bounds[order[i]].low, bounds[order[i]].high)
  {
    if order == [] then []
    else
      var m := order[|order| - 1];
      EntriesOf(order[..|order| - 1], bounds) + [LevelHint(m, bounds[m].low, bounds[m].high)]
  }

  function Entries(h: Hints): seq<LevelHint>
    requires WellFormed(h)
  {
    EntriesOf(h.order, h.bounds)
  }

  /** The interval list `getAllHints` returns: the entries stably sorted by key level. */
  function SortedHints(h: Hints): seq<LevelHint>
    requires WellFormed(h)
  {
    InsertionSort(Entries(h), HintKeyLevel)
  }
}
