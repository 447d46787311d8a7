// src/simulation.hpp: running a battle many times, summarising the scores, locating a score
// among the results, and trying the orders of a board.
module Simulation {
  import opened Util
  import opened MinionInfo
  import opened Minions
  import opened MinionArrays
  import opened Boards
  import opened Rng
  import opened BattleRules

  const DefaultNumRuns: nat := 1000

  // ---------------------------------------------------------------------------
  // simulate_single and simulate

  /** `simulate_single(battle)`: a copy of the battle is run, sharing the battle generator, and
      scored; the result is the score and the generator's new state. */
  function SimulateSingle(c: Tables, g: BattleState, st: State, rounds: nat, fuel: nat): (int, State)
    requires 0 <= g.turn <= 1
  {
    var r := BattleRules.Run(c, g.(rng := st), rounds, fuel);
    (BattleRules.Score(c, r), r.rng)
  }

  /** The scores of `n` runs one after the other, in the order they were played. */
  function Runs(c: Tables, g: BattleState, st: State, n: nat, rounds: nat, fuel: nat): (r: (seq<int>, State))
    requires 0 <= g.turn <= 1
    ensures |r.0| == n
  {
    if n == 0 then ([], st)
    else
      var p := Runs(c, g, st, n - 1, rounds, fuel);
      var x := SimulateSingle(c, g, p.1, rounds, fuel);
      (p.0 + [x.0], x.1)
  }

  ghost predicate Sorted(s: seq<int>) {
    forall i, j :: 0 <= i < j < |s| ==> s[i] <= s[j]
  }

  /** `x` placed before the first larger element of a sorted sequence. */
  function InsertSorted(s: seq<int>, x: int): (r: seq<int>)
    requires Sorted(s)
    ensures Sorted(r) && multiset(r) == multiset(s) + multiset{x} && |r| == |s| + 1
  {
    if s == [] then [x]
    else if x <= s[0] then [x] + s
    else
      var t := InsertSorted(s[1..], x);
      InsertSortedStep(s, x, t);
      [s[0]] + t
  }

  /** The step of `InsertSorted` past a smaller head: the head stays below the rest. */
  lemma InsertSortedStep(s: seq<int>, x: int, t: seq<int>)
    requires Sorted(s) && |s| > 0 && s[0] < x
    requires Sorted(t) && multiset(t) == multiset(s[1..]) + multiset{x}
    ensures Sorted([s[0]] + t) && multiset([s[0]] + t) == multiset(s) + multiset{x}
  {
    assert s == [s[0]] + s[1..];
    forall k | 0 <= k < |t| ensures s[0] <= t[k] {
      assert t[k] in multiset(t);
      assert t[k] == x || t[k] in multiset(s[1..]);
    }
  }

  /** `std::sort` on the results: ascending, the same scores. */
  function SortScores(s: seq<int>): (r: seq<int>)
    ensures Sorted(r) && multiset(r) == multiset(s) && |r| == |s|
  {
    if s == [] then []
    else
      assert s == s[..|s| - 1] + [s[|s| - 1]];
      InsertSorted(SortScores(s[..|s| - 1]), s[|s| - 1])
  }

  /** `simulate(b, n)`: `n` runs pushed in turn, then sorted. */
  method Simulate(c: Tables, g: BattleState, st: State, n: nat, rounds: nat, fuel: nat)
    returns (results: seq<int>, st': State)
    requires 0 <= g.turn <= 1
    ensures |results| == n && Sorted(results)
    ensures multiset(results) == multiset(Runs(c, g, st, n, rounds, fuel).0)
    ensures st' == Runs(c, g, st, n, rounds, fuel).1
  {
    hide SimulateSingle, SortScores, BattleRules.Run, BattleRules.Score;
    results := [];
    st' := st;
    var i := 0;
    while i < n
      invariant 0 <= i <= n && (results, st') == Runs(c, g, st, i, rounds, fuel)
    {
      var x := SimulateSingle(c, g, st', rounds, fuel);
      results := results + [x.0];
      st' := x.1;
      i := i + 1;
    }
    results := SortScores(results);
  }

  // ---------------------------------------------------------------------------
  // ScoreSummary

  /** The four counters of `ScoreSummary`. */
  datatype Summary = Summary(totalScore: int, wins: int, draws: int, losses: int)

  const NoScores := Summary(0, 0, 0, 0)

  function RunCount(s: Summary): int {
    s.wins + s.draws + s.losses
  }

  /** `add_score(score)`. */
  function WithScore(s: Summary, score: int): Summary {
    if score > 0 then s.(totalScore := s.totalScore + score, wins := s.wins + 1)
    else if score == 0 then s.(draws := s.draws + 1)
    else s.(totalScore := s.totalScore + score, losses := s.losses + 1)
  }

  /** `add_score` over a list, first element first. */
  function AddAll(s: Summary, scores: seq<int>): Summary {
    if scores == [] then s else WithScore(AddAll(s, scores[..|scores| - 1]), scores[|scores| - 1])
  }

  function Sum(s: seq<int>): int {
    if s == [] then 0 else Sum(s[..|s| - 1]) + s[|s| - 1]
  }

  function IsWin(x: int): bool { x > 0 }
  function IsDraw(x: int): bool { x == 0 }
  function IsLoss(x: int): bool { x < 0 }

  /** One call counts one run, as a win, a draw or a loss by the sign of the score, and adds
      the score to the total. */
  lemma WithScoreCounts(s: Summary, score: int)
    ensures var r := WithScore(s, score);
      && RunCount(r) == RunCount(s) + 1 && r.totalScore == s.totalScore + score
      && r.wins == s.wins + (if score > 0 then 1 else 0)
      && r.draws == s.draws + (if score == 0 then 1 else 0)
      && r.losses == s.losses + (if score < 0 then 1 else 0)
  {
  }

  /** Adding a list counts each of its scores: the total grows by their sum, the wins, draws
      and losses by the numbers of positive, zero and negative scores, and the runs by the
      list's length. */
  lemma {:induction false} AddAllCounts(s: Summary, scores: seq<int>)
    ensures var r := AddAll(s, scores);
      && r.totalScore == s.totalScore + Sum(scores)
      && r.wins == s.wins + Count(scores, IsWin)
      && r.draws == s.draws + Count(scores, IsDraw)
      && r.losses == s.losses + Count(scores, IsLoss)
      && RunCount(r) == RunCount(s) + |scores|
  {
    if scores != [] {
      AddAllCounts(s, scores[..|scores| - 1]);
      WithScoreCounts(AddAll(s, scores[..|scores| - 1]), scores[|scores| - 1]);
    }
  }

  /** The order of two scores does not matter. */
  lemma WithScoreCommutes(s: Summary, x: int, y: int)
    ensures WithScore(WithScore(s, x), y) == WithScore(WithScore(s, y), x)
  {
  }

  /** One score can be added first instead of in its place. */
  lemma {:induction false} AddAllMoveFirst(s: Summary, a: seq<int>, x: int, b: seq<int>)
    ensures AddAll(s, a + [x] + b) == AddAll(WithScore(s, x), a + b)
    decreases |a| + |b|
  {
    if b != [] {
      var b' := b[..|b| - 1];
      assert (a + [x] + b)[..|a + [x] + b| - 1] == a + [x] + b';
      assert (a + b)[..|a + b| - 1] == a + b';
      AddAllMoveFirst(s, a, x, b');
    } else if a != [] {
      var a' := a[..|a| - 1];
      var y := a[|a| - 1];
      var z := AddAll(s, a');
      assert (a + [x] + b)[..|a| + 1 - 1] == a && a[..|a| - 1] == a';
      assert a' + [x] + [] == a' + [x] && (a' + [x])[..|a'|] == a';
      AddAllMoveFirst(s, a', x, []);
      assert a' + [] == a';
      assert AddAll(s, a' + [x]) == AddAll(WithScore(s, x), a');
      WithScoreCommutes(z, x, y);
      assert (a + b)[..|a + b| - 1] == a';
    } else {
      assert a + [x] + b == [x];
      assert [x][..0] == [];
    }
  }

  /** The summary of a list depends only on its scores, not on their order. */
  lemma {:induction false} AddAllPermutation(s: Summary, a: seq<int>, b: seq<int>)
    requires multiset(a) == multiset(b)
    ensures AddAll(s, a) == AddAll(s, b)
    decreases |a|
  {
    hide AddAll;
    if a != [] {
      var x := a[0];
      assert x in multiset(b);
      var j :| 0 <= j < |b| && b[j] == x;
      var b' := b[..j] + b[j + 1..];
      assert b == b[..j] + [x] + b[j + 1..];
      assert a == [x] + a[1..];
      assert multiset(b) == multiset(b[..j]) + multiset{x} + multiset(b[j + 1..]);
      assert multiset(a) == multiset{x} + multiset(a[1..]);
      assert multiset(a[1..]) == multiset(a) - multiset{x};
      assert multiset(b') == multiset(b) - multiset{x};
      AddAllPermutation(WithScore(s, x), a[1..], b');
      AddAllMoveFirst(s, [], x, a[1..]);
      assert [] + [x] + a[1..] == a && [] + a[1..] == a[1..];
      AddAllMoveFirst(s, b[..j], x, b[j + 1..]);
    } else {
      assert b == [];
    }
  }

  /** `simulate_summary(battle, runs)`: the runs added one by one as they are played. */
  function SimulateSummary(c: Tables, g: BattleState, st: State, runs: nat, rounds: nat, fuel: nat): Summary
    requires 0 <= g.turn <= 1
  {
    AddAll(NoScores, Runs(c, g, st, runs, rounds, fuel).0)
  }

  /** Summarising the sorted results of `simulate` gives `simulate_summary` of the same runs. */
  lemma SummaryOfSimulate(c: Tables, g: BattleState, st: State, n: nat, rounds: nat, fuel: nat, results: seq<int>)
    requires 0 <= g.turn <= 1
    requires multiset(results) == multiset(Runs(c, g, st, n, rounds, fuel).0)
    ensures AddAll(NoScores, results) == SimulateSummary(c, g, st, n, rounds, fuel)
    ensures RunCount(AddAll(NoScores, results)) == n
  {
    hide Runs;
    var played := Runs(c, g, st, n, rounds, fuel).0;
    AddAllPermutation(NoScores, results, played);
    AddAllCounts(NoScores, results);
    assert |results| == |played| by {
      assert |multiset(results)| == |multiset(played)|;
    }
  }

  /** `ScoreSummary`. */
  class ScoreSummary {
    var totalScore: int
    var numWins: int
    var numDraws: int
    var numLosses: int

    function Model(): Summary
      reads this
    {
      Summary(totalScore, numWins, numDraws, numLosses)
    }

    /** `ScoreSummary()`: every counter 0. */
    constructor()
      ensures Model() == NoScores
    {
      totalScore, numWins, numDraws, numLosses := 0, 0, 0, 0;
    }

    /** `ScoreSummary(scores)`: `add_scores` on a fresh summary. */
    constructor FromScores(scores: seq<int>)
      ensures Model() == AddAll(NoScores, scores)
    {
      totalScore, numWins, numDraws, numLosses := 0, 0, 0, 0;
      new;
      AddScores(scores);
    }

    /** `num_runs()`. */
    function NumRuns(): (r: int)
      reads this
      ensures r == RunCount(Model())
    {
      numWins + numDraws + numLosses
    }

    /** `add_score(score)`. */
    method AddScore(score: int)
      modifies this
      ensures Model() == WithScore(old(Model()), score)
    {
      totalScore := totalScore + score;
      if score > 0 {
        numWins := numWins + 1;
      } else if score == 0 {
        numDraws := numDraws + 1;
      } else {
        numLosses := numLosses + 1;
      }
    }

    /** `add_scores(scores)`. */
    method AddScores(scores: seq<int>)
      modifies this
      ensures Model() == AddAll(old(Model()), scores)
    {
      var i := 0;
      while i < |scores|
        invariant 0 <= i <= |scores| && Model() == AddAll(old(Model()), scores[..i])
      {
        assert scores[..i + 1][..i] == scores[..i];
        AddScore(scores[i]);
        i := i + 1;
      }
      assert scores[..i] == scores;
    }
  }

  // ---------------------------------------------------------------------------
  // percentile

  /** `lower_bound`: the first index whose element is not below `x`. */
  function LowerBound(s: seq<int>, x: int): (r: nat)
    requires Sorted(s)
    ensures r <= |s|
    ensures forall k :: 0 <= k < r ==> s[k] < x
    ensures forall k :: r <= k < |s| ==> s[k] >= x
  {
    if s == [] || s[0] >= x then 0 else 1 + LowerBound(s[1..], x)
  }

  /** `upper_bound`: the first index whose element is above `x`. */
  function UpperBound(s: seq<int>, x: int): (r: nat)
    requires Sorted(s)
    ensures r <= |s|
    ensures forall k :: 0 <= k < r ==> s[k] <= x
    ensures forall k :: r <= k < |s| ==> s[k] > x
  {
    if s == [] || s[0] > x then 0 else 1 + UpperBound(s[1..], x)
  }

  /** Bounds grow with the value searched for. */
  lemma {:induction false} LowerBoundAtLeast(s: seq<int>, x: int, k: nat)
    requires Sorted(s) && k <= |s| && forall t :: 0 <= t < k ==> s[t] < x
    ensures LowerBound(s, x) >= k
  {
    if k > 0 {
      LowerBoundAtLeast(s[1..], x, k - 1);
    }
  }

  lemma {:induction false} UpperBoundAtLeast(s: seq<int>, x: int, k: nat)
    requires Sorted(s) && k <= |s| && forall t :: 0 <= t < k ==> s[t] <= x
    ensures UpperBound(s, x) >= k
  {
    if k > 0 {
      UpperBoundAtLeast(s[1..], x, k - 1);
    }
  }

  /** `results.size() - 1` as the unsigned 64-bit value the division uses: it wraps around to
      the largest value for an empty list. */
  function SizeMinusOne(s: seq<int>): nat {
    if |s| == 0 then 0xFFFF_FFFF_FFFF_FFFF else |s| - 1
  }

  /** `percentile(i, results)` as written: the midpoint of the equal range of `i`, scaled by
      100 and divided by the size less one; `None` where that divisor is 0. */
  function Percentile(i: int, results: seq<int>): (r: Option<int>)
    requires Sorted(results)
  {
    var a := LowerBound(results, i);
    var b := UpperBound(results, i);
    var d := SizeMinusOne(results);
    if d == 0 then Option.None else Some(100 * (a + b) / 2 / d)
  }

  /** A single result divides by zero; an empty list gives 0; otherwise the value is the
      midpoint of the equal range over the size less one, and it is never negative. */
  lemma PercentileCases(i: int, results: seq<int>)
    requires Sorted(results)
    ensures Percentile(i, results).None? <==> |results| == 1
    ensures |results| == 0 ==> Percentile(i, results) == Some(0)
    ensures |results| >= 2 ==> Percentile(i, results).value >= 0
  {
  }

  /** The equal range counts the results below `i` and those not above it. */
  lemma {:induction false} EqualRangeCounts(s: seq<int>, x: int)
    requires Sorted(s)
    ensures LowerBound(s, x) == Count(s, (y: int) => y < x)
    ensures UpperBound(s, x) == Count(s, (y: int) => y <= x)
  {
    var lo := LowerBound(s, x);
    var hi := UpperBound(s, x);
    CountSplit(s, lo, (y: int) => y < x);
    CountSplit(s, hi, (y: int) => y <= x);
  }

  /** A predicate true exactly on a prefix counts that prefix. */
  lemma {:induction false} CountSplit(s: seq<int>, k: nat, p: int -> bool)
    requires k <= |s|
    requires forall j :: 0 <= j < |s| ==> (p(s[j]) <==> j < k)
    ensures Count(s, p) == k
  {
    if s != [] {
      var t := s[..|s| - 1];
      if k == |s| {
        CountSplit(t, k - 1, p);
      } else {
        CountSplit(t, k, p);
      }
    }
  }

  /** The value as written exceeds 100 for the largest of two different results. */
  lemma PercentileAbove100()
    ensures Percentile(1, [0, 1]) == Some(150)
  {
    assert LowerBound([0, 1], 1) == 1 by {
      assert [0, 1][1..] == [1];
    }
    assert UpperBound([0, 1], 1) == 2 by {
      assert [0, 1][1..] == [1];
      assert [1][1..] == [];
    }
  }

  /** The percentile the output line evidently means: the midpoint of the equal range over the
      size, a number from 0 to 100, and none for no results. */
  function PercentileCorrected(i: int, results: seq<int>): (r: Option<int>)
    requires Sorted(results)
    ensures r.None? <==> |results| == 0
    ensures r.Some? ==> 0 <= r.value <= 100
  {
    var a := LowerBound(results, i);
    var b := UpperBound(results, i);
    if |results| == 0 then Option.None
    else
      DivAtMost(100 * (a + b), 2, 100 * |results|);
      DivAtMost(100 * (a + b) / 2, |results|, 100);
      Some(100 * (a + b) / 2 / |results|)
  }

  /** A larger score never lies at a smaller percentile. */
  lemma PercentileCorrectedMonotone(i: int, j: int, results: seq<int>)
    requires Sorted(results) && i <= j && |results| > 0
    ensures PercentileCorrected(i, results).value <= PercentileCorrected(j, results).value
  {
    var n := |results|;
    var a, b := LowerBound(results, i), UpperBound(results, i);
    var a', b' := LowerBound(results, j), UpperBound(results, j);
    LowerBoundAtLeast(results, j, a);
    UpperBoundAtLeast(results, j, b);
    DivMonotone(100 * (a + b), 100 * (a' + b'), 2);
    DivMonotone(100 * (a + b) / 2, 100 * (a' + b') / 2, n);
  }

  // ---------------------------------------------------------------------------
  // permute_minions

  /** `board.minions[k] = original[perm[k]]` for `k < n`, the other slots as they were. */
  function Permuted(slots: seq<Minion>, original: seq<Minion>, perm: seq<int>, n: int): (r: seq<Minion>)
    requires n <= |slots| && n <= |perm|
    requires forall k :: 0 <= k < n ==> 0 <= perm[k] < |original|
    ensures |r| == |slots|
  {
    seq(|slots|, k requires 0 <= k < |slots| => if k < n then original[perm[k]] else slots[k])
  }

  /** `permute_minions(board, original, perm, n)`. */
  method PermuteMinions(board: Board, original: seq<Minion>, perm: seq<int>, n: int)
    requires board.Valid() && n <= BoardSize && n <= |perm|
    requires forall k :: 0 <= k < n ==> 0 <= perm[k] < |original|
    modifies board.base.minions
    ensures board.Slots() == Permuted(old(board.Slots()), original, perm, n)
  {
    var i := 0;
    while i < n
      invariant 0 <= i <= Max(n, 0)
      invariant board.Slots() == Permuted(old(board.Slots()), original, perm, i)
    {
      board.base.minions[i] := original[perm[i]];
      i := i + 1;
    }
  }

  /** With a permutation of `0 .. n - 1` the first `n` slots hold the first `n` original
      minions in the new order, and the slots after them are untouched. */
  lemma PermutedKeepsMinions(slots: seq<Minion>, original: seq<Minion>, perm: seq<int>, n: nat)
    requires n <= |slots| && n <= |original| && |perm| == n && IsRangePerm(perm)
    ensures forall k :: 0 <= k < n ==> 0 <= perm[k] < |original|
    ensures var r := Permuted(slots, original, perm, n);
      multiset(r[..n]) == multiset(original[..n]) && r[n..] == slots[n..]
  {
    forall k | 0 <= k < n ensures 0 <= perm[k] < |original| {
      RangePermBounds(perm, k);
    }
    var r := Permuted(slots, original, perm, n);
    assert r[..n] == Gather(original, perm);
    GatherPermutes(original, perm);
  }

  /** The elements of `s` at the positions `p`. */
  function Gather(s: seq<Minion>, p: seq<int>): (r: seq<Minion>)
    requires forall k :: 0 <= k < |p| ==> 0 <= p[k] < |s|
    ensures |r| == |p|
  {
    seq(|p|, k requires 0 <= k < |p| => s[p[k]])
  }

  lemma GatherAppend(s: seq<Minion>, u: seq<int>, v: seq<int>)
    requires forall k :: 0 <= k < |u| ==> 0 <= u[k] < |s|
    requires forall k :: 0 <= k < |v| ==> 0 <= v[k] < |s|
    ensures Gather(s, u + v) == Gather(s, u) + Gather(s, v)
  {
  }

  /** Taking the largest value out of a permutation of `0 .. n - 1` leaves one of
      `0 .. n - 2`. */
  lemma RangePermDropLast(p: seq<int>) returns (j: nat)
    requires |p| > 0 && IsRangePerm(p)
    ensures j < |p| && p[j] == |p| - 1 && IsRangePerm(p[..j] + p[j + 1..])
  {
    var n := |p|;
    j := SplitAtTop(p);
    var q := p[..j] + p[j + 1..];
    RangeSnoc(n - 1);
    assert multiset(Range(n)) == multiset(Range(n - 1)) + multiset{n - 1};
    MultisetCancel(multiset(q), multiset(Range(n - 1)), multiset{n - 1});
  }

  /** The position of the largest value of a permutation of `0 .. n - 1`, and what is left
      around it. */
  lemma SplitAtTop(p: seq<int>) returns (j: nat)
    requires |p| > 0 && IsRangePerm(p)
    ensures j < |p| && p[j] == |p| - 1
    ensures multiset(p) == multiset(p[..j] + p[j + 1..]) + multiset{|p| - 1}
  {
    hide Range;
    var n := |p|;
    RangeCounts(n, n - 1);
    assert n - 1 in multiset(p);
    j :| 0 <= j < n && p[j] == n - 1;
    var q := p[..j] + p[j + 1..];
    assert p == q[..j] + [n - 1] + q[j..];
    assert q == q[..j] + q[j..];
  }

  /** `a + m == b + m` leaves `a == b`. */
  lemma MultisetCancel(a: multiset<int>, b: multiset<int>, m: multiset<int>)
    requires a + m == b + m
    ensures a == b
  {
    forall x ensures a[x] == b[x] {
      assert (a + m)[x] == (b + m)[x];
    }
  }

  lemma RangeSnoc(n: nat)
    ensures Range(n + 1) == Range(n) + [n]
  {
  }

  /** Gathering at a permutation of `0 .. |p| - 1` rearranges the first `|p|` elements. */
  lemma {:induction false} GatherPermutes(s: seq<Minion>, p: seq<int>)
    requires |p| <= |s| && IsRangePerm(p)
    requires forall k :: 0 <= k < |p| ==> 0 <= p[k] < |s|
    ensures multiset(Gather(s, p)) == multiset(s[..|p|])
    decreases |p|
  {
    var n := |p|;
    if n > 0 {
      var j := RangePermDropLast(p);
      var u, v := p[..j], p[j + 1..];
      assert p == u + [n - 1] + v;
      hide IsRangePerm;
      GatherPermutes(s, u + v);
      GatherAppend(s, u, [n - 1]);
      GatherAppend(s, u + [n - 1], v);
      GatherAppend(s, u, v);
      var gu, gv := Gather(s, u), Gather(s, v);
      assert Gather(s, [n - 1]) == [s[n - 1]];
      assert Gather(s, p) == gu + [s[n - 1]] + gv;
      assert s[..n] == s[..n - 1] + [s[n - 1]];
    }
  }

  // ---------------------------------------------------------------------------
  // OptimizeMinionOrder

  /** The first order with the highest score among `orders`, and that score. */
  function Best(orders: seq<seq<int>>, score: seq<int> -> real): (r: (seq<int>, real))
    requires |orders| > 0
  {
    if |orders| == 1 then (orders[0], score(orders[0]))
    else
      var b := Best(orders[..|orders| - 1], score);
      var o := orders[|orders| - 1];
      if score(o) > b.1 then (o, score(o)) else b
  }

  /** The best order is the first one reaching the maximum of the scores. */
  lemma {:induction false} BestIsFirstMaximum(orders: seq<seq<int>>, score: seq<int> -> real)
    requires |orders| > 0
    ensures var b := Best(orders, score);
      && b.1 == score(b.0)
      && (forall k :: 0 <= k < |orders| ==> score(orders[k]) <= b.1)
      && exists j :: 0 <= j < |orders| && orders[j] == b.0
                    && forall k :: 0 <= k < j ==> score(orders[k]) < b.1
  {
    if |orders| > 1 {
      var front := orders[..|orders| - 1];
      BestIsFirstMaximum(front, score);
      var b := Best(front, score);
      var j :| 0 <= j < |front| && front[j] == b.0 && forall k :: 0 <= k < j ==> score(front[k]) < b.1;
      var o := orders[|orders| - 1];
      if score(o) > b.1 {
        assert forall k :: 0 <= k < |orders| - 1 ==> score(orders[k]) < score(o) by {
          forall k | 0 <= k < |orders| - 1 ensures score(orders[k]) < score(o) {
            assert orders[k] == front[k];
          }
        }
      } else {
        assert orders[j] == front[j];
        assert forall k :: 0 <= k < j ==> orders[k] == front[k];
      }
    } else {
      assert orders[0] == orders[0];
    }
  }

  /** The identity order of `n` minions, the first order tried. */
  function Identity(n: nat): (r: seq<int>)
    ensures |r| == n && forall k :: 0 <= k < n ==> r[k] == k
  {
    seq(n, k => k)
  }

  /** `OptimizeMinionOrder(board, enemy, runs)`: the identity order and then every later order
      are scored; the first score is the current one and the best order is the first one with
      the highest score. The orders after the identity and the score of an order are given. */
  class OptimizeMinionOrder {
    var bestOrder: seq<int>
    var currentScore: real
    var bestScore: real
    var n: int

    constructor(board: Board, later: seq<seq<int>>, score: seq<int> -> real)
      requires board.Valid()
      ensures n == SizeOf(board.Slots())
      ensures currentScore == score(Identity(n))
      ensures (bestOrder, bestScore) == Best([Identity(n)] + later, score)
      ensures bestScore >= currentScore
    {
      var size := SizeOf(board.Slots());
      var order := Identity(size);
      var orders := [order] + later;
      var s := score(order);
      n, currentScore, bestScore, bestOrder := size, s, s, order;
      new;
      var i := 1;
      while i < |orders|
        invariant 1 <= i <= |orders|
        invariant (bestOrder, bestScore) == Best(orders[..i], score)
        invariant n == size && currentScore == score(Identity(size))
      {
        assert orders[..i + 1][..i] == orders[..i];
        var s := score(orders[i]);
        if s > bestScore {
          bestScore, bestOrder := s, orders[i];
        }
        i := i + 1;
      }
      assert orders[..i] == orders;
      BestIsFirstMaximum(orders, score);
      assert orders[0] == Identity(size);
    }
  }
}
