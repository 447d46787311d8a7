// src/board.hpp: one player's side of a battle. The seven slots are a MinionArray (board.hpp
// carries its own copy of the array code; the shared operations are those of MinionArrays), plus
// the index of the next attacker and three tracked positions that follow minions while the
// board shifts under them.
module Boards {
  import opened Util
  import opened Tribes
  import opened MinionInfo
  import opened Minions
  import opened MinionArrays
  import opened Rng

  const BoardSize := 7
  const NumExtraPos := 3
  /** `std::numeric_limits<int>::max()`, the start value of the lowest-attack scan. */
  const IntMax := 0x7fff_ffff

  // ---------------------------------------------------------------------------
  // Tracked positions and the next attacker under insert and remove

  /** `insert` as written: a tracked position at or below the insert position is incremented,
      -1 included. */
  function TrackAfterInsertAsWritten(t: int, pos: int): int {
    if pos >= t then t + 1 else t
  }

  /** `insert` as intended: a minion at or after the insert position moves one to the right. */
  function TrackAfterInsert(t: int, pos: int): int {
    if t >= pos then t + 1 else t
  }

  /** `remove`: a position after the removed one moves left, the removed minion is lost (-1). */
  function TrackAfterRemove(t: int, pos: int): int {
    if pos < t then t - 1 else if pos == t then -1 else t
  }

  function NextAttackerAfterInsert(n: int, pos: int): int {
    if n > pos then n + 1 else n
  }

  function NextAttackerAfterRemove(n: int, pos: int): int {
    if pos < n then n - 1 else n
  }

  function TracksAfterInsert(ts: seq<int>, pos: int): (r: seq<int>)
    ensures |r| == |ts|
  {
    seq(|ts|, i requires 0 <= i < |ts| => TrackAfterInsert(ts[i], pos))
  }

  function TracksAfterRemove(ts: seq<int>, pos: int): (r: seq<int>)
    ensures |r| == |ts|
  {
    seq(|ts|, i requires 0 <= i < |ts| => TrackAfterRemove(ts[i], pos))
  }

  /** A tracked position is either lost (-1) or the index of a live minion. */
  predicate TrackValid(t: int, size: int) {
    t == -1 || 0 <= t < size
  }

  /** After an insert the tracked position still names the same minion; -1 stays -1. */
  lemma InsertFollowsTrackedMinion(s: seq<Minion>, pos: nat, m: Minion, t: int)
    requires pos < |s| && -1 <= t < |s| - 1
    ensures t == -1 ==> TrackAfterInsert(t, pos) == -1
    ensures t >= 0 ==>
              0 <= TrackAfterInsert(t, pos) < |s| && Inserted(s, pos, m)[TrackAfterInsert(t, pos)] == s[t]
  {
  }

  /** After a remove the tracked position names the same minion, or is -1 when that minion was
      the one removed. */
  lemma RemoveFollowsTrackedMinion(s: seq<Minion>, pos: nat, t: int)
    requires pos < |s| && -1 <= t < |s|
    ensures TrackAfterRemove(t, pos) == -1 <==> t == -1 || t == pos
    ensures t >= 0 && t != pos ==> Removed(s, pos)[TrackAfterRemove(t, pos)] == s[t]
  {
  }

  /** Removing at the position just inserted at restores every tracked position and the next
      attacker. */
  lemma InsertThenRemoveRestoresPositions(t: int, n: int, pos: nat)
    requires t >= -1
    ensures TrackAfterRemove(TrackAfterInsert(t, pos), pos) == t
    ensures NextAttackerAfterRemove(NextAttackerAfterInsert(n, pos), pos) == n
  {
  }

  /** The next attacker keeps pointing at the same minion, except that an insert exactly at the
      next attacker's slot makes the inserted minion the next attacker (the source's note). */
  lemma InsertKeepsNextAttacker(s: seq<Minion>, pos: nat, m: Minion, n: nat)
    requires pos < |s| && n < |s| - 1
    ensures n != pos ==> Inserted(s, pos, m)[NextAttackerAfterInsert(n, pos)] == s[n]
    ensures n == pos ==> Inserted(s, pos, m)[NextAttackerAfterInsert(n, pos)] == m
  {
  }

  /** As written, `insert` moves a tracked position that lies before the insert point onto the
      inserted minion, and revives a lost (-1) position as slot 0. */
  lemma InsertAsWrittenLosesTrackedMinion(s: seq<Minion>, m: Minion)
    requires |s| >= 2 && m != s[0]
    ensures TrackAfterInsertAsWritten(0, 1) == 1 && Inserted(s, 1, m)[1] != s[0]
    ensures TrackAfterInsertAsWritten(-1, 0) == 0
    ensures TrackAfterInsert(0, 1) == 0 && TrackAfterInsert(-1, 0) == -1
  {
  }

  // ---------------------------------------------------------------------------
  // Targets, as functions of the live minions and the generator state

  /** `random_attack_target`: a uniformly drawn taunt minion if there is one, else any minion,
      -1 on an empty board. */
  function AttackTarget(live: seq<Minion>, st: State): int {
    var taunts := Count(live, Taunted);
    if taunts > 0 then NthIndex(live, Taunted, Draw(st, taunts))
    else if |live| == 0 then -1
    else Draw(st, |live|)
  }

  lemma AttackTargetFacts(live: seq<Minion>, st: State)
    ensures AttackTarget(live, st) == -1 <==> live == []
    ensures AttackTarget(live, st) < |live|
    ensures Count(live, Taunted) > 0 ==> live[AttackTarget(live, st)].taunt
  {
    var taunts := Count(live, Taunted);
    if taunts > 0 {
      NthIndexFound(live, Taunted, Draw(st, taunts));
    }
  }

  /** The lowest attack among the minions, or IntMax when every attack is at least that. */
  function Lowest(s: seq<Minion>): (r: int)
    ensures r <= IntMax
    ensures forall i :: 0 <= i < |s| ==> r <= s[i].attack || s[i].attack > IntMax
    ensures r == IntMax || exists i :: 0 <= i < |s| && s[i].attack == r
  {
    if s == [] then IntMax
    else
      var r := Lowest(s[..|s| - 1]);
      var a := s[|s| - 1].attack;
      if a < r then a else r
  }

  /** `lowest_attack_target`: a uniformly drawn minion of lowest attack. The source draws from a
      range of zero when no attack is below IntMax; the model returns -1 there. */
  function LowestTarget(live: seq<Minion>, st: State): int {
    var k := Count(live, HasAttack(Lowest(live)));
    if k == 0 then -1 else NthIndex(live, HasAttack(Lowest(live)), Draw(st, k))
  }

  lemma LowestTargetFacts(live: seq<Minion>, st: State)
    requires exists i :: 0 <= i < |live| && live[i].attack <= IntMax
    ensures 0 <= LowestTarget(live, st) < |live|
    ensures forall j :: 0 <= j < |live| ==> live[LowestTarget(live, st)].attack <= live[j].attack
  {
    var low := Lowest(live);
    var i :| 0 <= i < |live| && live[i].attack <= IntMax;
    var j :| 0 <= j < |live| && live[j].attack == low;
    CountZero(live, HasAttack(low));
    var k := Count(live, HasAttack(low));
    NthIndexFound(live, HasAttack(low), Draw(st, k));
  }

  /** `random_living_minion`: a uniformly drawn minion with health above zero, or -1. */
  function LivingTarget(live: seq<Minion>, st: State): int {
    var k := Count(live, NotDead);
    if k == 0 then -1 else NthIndex(live, NotDead, Draw(st, k))
  }

  lemma LivingTargetFacts(live: seq<Minion>, st: State)
    ensures LivingTarget(live, st) >= -1
    ensures LivingTarget(live, st) == -1 <==> forall i :: 0 <= i < |live| ==> Dead(live[i])
    ensures LivingTarget(live, st) >= 0 ==>
              LivingTarget(live, st) < |live| && !Dead(live[LivingTarget(live, st)])
  {
    var k := Count(live, NotDead);
    CountZero(live, NotDead);
    if k > 0 {
      NthIndexFound(live, NotDead, Draw(st, k));
    }
  }

  // ---------------------------------------------------------------------------
  // Presence of a minion type, totals

  /** `has_minion(type)`: 0 if no living minion has the type, 2 if a golden one does, else 1. */
  function HaveLevel(s: seq<Minion>, t: MinionType): (r: nat)
    ensures r <= 2
  {
    if s == [] then 0
    else
      var m := s[|s| - 1];
      var r := HaveLevel(s[..|s| - 1], t);
      if !Dead(m) && m.kind == t && (if m.golden then 2 else 1) > r then (if m.golden then 2 else 1)
      else r
  }

  /** One more slot for `has_minion`'s scan. */
  lemma HaveLevelStep(s: seq<Minion>, t: MinionType, i: nat)
    requires i < |s|
    ensures HaveLevel(s[..i + 1], t)
         == if !Dead(s[i]) && s[i].kind == t then Max(HaveLevel(s[..i], t), if s[i].golden then 2 else 1)
            else HaveLevel(s[..i], t)
  {
    assert s[..i + 1][..i] == s[..i];
  }

  /** `has_minion` is 0 exactly when no living minion has the type. */
  lemma HaveLevelZero(s: seq<Minion>, t: MinionType)
    ensures HaveLevel(s, t) == 0 <==> forall i :: 0 <= i < |s| ==> Dead(s[i]) || s[i].kind != t
  {
    if HaveLevel(s, t) != 0 {
      PositiveHasLiving(s, t);
    }
    forall i | 0 <= i < |s| && !Dead(s[i]) && s[i].kind == t
      ensures HaveLevel(s, t) > 0
    {
      LivingGivesPositive(s, t, i);
    }
  }

  lemma {:induction false} PositiveHasLiving(s: seq<Minion>, t: MinionType)
    requires HaveLevel(s, t) > 0
    ensures exists i :: 0 <= i < |s| && !Dead(s[i]) && s[i].kind == t
  {
    var n := |s| - 1;
    if !(!Dead(s[n]) && s[n].kind == t) {
      var u := s[..n];
      PositiveHasLiving(u, t);
      var i :| 0 <= i < |u| && !Dead(u[i]) && u[i].kind == t;
      assert s[i] == u[i];
    }
  }

  lemma {:induction false} LivingGivesPositive(s: seq<Minion>, t: MinionType, i: nat)
    requires i < |s| && !Dead(s[i]) && s[i].kind == t
    ensures HaveLevel(s, t) > 0
  {
    var n := |s| - 1;
    if i < n {
      var u := s[..n];
      assert u[i] == s[i];
      LivingGivesPositive(u, t, i);
    }
  }

  /** `has_minion` is 2 exactly when a living golden minion has the type. */
  lemma HaveLevelTwo(s: seq<Minion>, t: MinionType)
    ensures HaveLevel(s, t) == 2 <==>
              exists i :: 0 <= i < |s| && !Dead(s[i]) && s[i].kind == t && s[i].golden
  {
    if exists i :: 0 <= i < |s| && !Dead(s[i]) && s[i].kind == t && s[i].golden {
      var i :| 0 <= i < |s| && !Dead(s[i]) && s[i].kind == t && s[i].golden;
      GoldenGivesTwo(s, t, i);
    }
    if HaveLevel(s, t) == 2 {
      TwoHasGolden(s, t);
    }
  }

  lemma {:induction false} GoldenGivesTwo(s: seq<Minion>, t: MinionType, i: nat)
    requires i < |s| && !Dead(s[i]) && s[i].kind == t && s[i].golden
    ensures HaveLevel(s, t) == 2
  {
    var n := |s| - 1;
    if i < n {
      GoldenGivesTwo(s[..n], t, i);
    }
  }

  lemma {:induction false} TwoHasGolden(s: seq<Minion>, t: MinionType)
    requires HaveLevel(s, t) == 2
    ensures exists i :: 0 <= i < |s| && !Dead(s[i]) && s[i].kind == t && s[i].golden
  {
    var n := |s| - 1;
    var u := s[..n];
    if HaveLevel(u, t) == 2 {
      TwoHasGolden(u, t);
      var i :| 0 <= i < |u| && !Dead(u[i]) && u[i].kind == t && u[i].golden;
      assert s[i] == u[i];
    } else {
      assert !Dead(s[n]) && s[n].kind == t && s[n].golden;
    }
  }


  function StarsOf(c: Catalog, s: seq<Minion>): int {
    if s == [] then 0 else StarsOf(c, s[..|s| - 1]) + Stars(c, s[|s| - 1])
  }

  function StatsOf(s: seq<Minion>): int {
    if s == [] then 0 else StatsOf(s[..|s| - 1]) + s[|s| - 1].attack + s[|s| - 1].health
  }

  /** Totals add up over concatenation, so a board's total is the sum over its minions in any
      grouping. */
  lemma {:induction false} TotalsAppend(c: Catalog, a: seq<Minion>, b: seq<Minion>)
    ensures StarsOf(c, a + b) == StarsOf(c, a) + StarsOf(c, b)
    ensures StatsOf(a + b) == StatsOf(a) + StatsOf(b)
  {
    if b != [] {
      assert (a + b)[..|a + b| - 1] == a + b[..|b| - 1];
      TotalsAppend(c, a, b[..|b| - 1]);
    } else {
      assert a + b == a;
    }
  }

  // ---------------------------------------------------------------------------
  // Auras

  /** The minion types whose `recompute_aura_from` applies an aura (and answers true). */
  predicate IsAuraSource(t: MinionType) {
    t == DireWolfAlpha || t == MurlocWarleader || t == OldMurkEye || t == PhalanxCommander
    || t == Siegebreaker || t == MalGanis
  }

  /** The part of a minion auras read and never change: its type, goldenness, taunt and the
      tribe the table gives its type. */
  datatype AuraShape = AuraShape(kind: MinionType, golden: bool, taunt: bool, tribe: Tribe)

  function ShapeOf(c: Catalog, m: Minion): AuraShape {
    AuraShape(m.kind, m.golden, m.taunt, TribeOf(c, m.kind))
  }

  function Shapes(c: Catalog, s: seq<Minion>): (r: seq<AuraShape>)
    ensures |r| == |s|
  {
    seq(|s|, i requires 0 <= i < |s| => ShapeOf(c, s[i]))
  }

  /** Two boards with the same types, goldenness and taunts in every slot. */
  ghost predicate SameAuraShape(c: Catalog, s: seq<Minion>, t: seq<Minion>) {
    Shapes(c, s) == Shapes(c, t)
  }

  /** An aura's contribution to a minion: attack and health. */
  datatype Gain = Gain(attack: int, health: int)

  const NoGain := Gain(0, 0)

  /** The four auras `recompute_aura_from` applies with `aura_buff_others_if`. */
  predicate IsOthersSource(k: MinionType) {
    k == MurlocWarleader || k == PhalanxCommander || k == Siegebreaker || k == MalGanis
  }

  /** Their amounts: Murloc Warleader +2 attack, Phalanx Commander +2 attack, Siegebreaker
      +1 attack, Mal'Ganis +2/+2, each doubled when golden. */
  function OthersAmount(k: MinionType, golden: bool): Gain {
    if k == MalGanis then Gain(DoubleIfGolden(2, golden), DoubleIfGolden(2, golden))
    else if k == Siegebreaker then Gain(DoubleIfGolden(1, golden), 0)
    else Gain(DoubleIfGolden(2, golden), 0)
  }

  /** Their conditions on the receiving minion: murlocs, taunts, demons, demons. */
  predicate OthersTest(k: MinionType, to: AuraShape) {
    if k == PhalanxCommander then to.taunt
    else HasTribe(to.tribe, if k == MurlocWarleader then Tribe.Murloc else Tribe.Demon)
  }

  function OthersCondition(c: Catalog, k: MinionType): Minion -> bool {
    (m: Minion) => OthersTest(k, ShapeOf(c, m))
  }

  /** What the minion at index j of the live prefix (given by its shapes) adds to the aura
      counters of index i, given the number of murlocs on both boards (Old Murk-Eye's count). */
  function AuraFrom(live: seq<AuraShape>, murlocs: int, j: nat, i: nat): (r: Gain)
    requires j < |live| && i < |live|
    ensures !IsAuraSource(live[j].kind) ==> r == NoGain
  {
    var k := live[j].kind;
    var g := live[j].golden;
    if k == DireWolfAlpha then (if i + 1 == j || i == j + 1 then Gain(DoubleIfGolden(1, g), 0) else NoGain)
    else if k == OldMurkEye then (if i == j then Gain(DoubleIfGolden(murlocs - 1, g), 0) else NoGain)
    else if IsOthersSource(k) && i != j && OthersTest(k, live[i]) then OthersAmount(k, g)
    else NoGain
  }

  /** The total aura index i receives from the sources at indices 0..k-1. */
  function AuraSum(live: seq<AuraShape>, murlocs: int, k: nat, i: nat): Gain
    requires k <= |live| && i < |live|
  {
    if k == 0 then NoGain
    else
      var sum := AuraSum(live, murlocs, k - 1, i);
      var add := AuraFrom(live, murlocs, k - 1, i);
      Gain(sum.attack + add.attack, sum.health + add.health)
  }

  lemma {:induction false} SameShapeCount(c: Catalog, s: seq<Minion>, t: seq<Minion>, q: Tribe)
    requires SameAuraShape(c, s, t)
    ensures Count(s, IsOfTribe(c, q)) == Count(t, IsOfTribe(c, q))
  {
    if s != [] {
      var n := |s| - 1;
      assert Shapes(c, s[..n]) == Shapes(c, s)[..n] && Shapes(c, t[..n]) == Shapes(c, t)[..n];
      assert ShapeOf(c, s[n]) == Shapes(c, s)[n] == Shapes(c, t)[n] == ShapeOf(c, t[n]);
      SameShapeCount(c, s[..n], t[..n], q);
    }
  }

  /** Boards of the same shape have live prefixes of the same length and shape. */
  lemma SameShapeLive(c: Catalog, s: seq<Minion>, t: seq<Minion>)
    requires SameAuraShape(c, s, t)
    ensures SizeOf(s) == SizeOf(t) && SameAuraShape(c, Live(s), Live(t))
    ensures LivePrefix(s) <==> LivePrefix(t)
  {
    forall i | 0 <= i < |s| ensures s[i].kind == t[i].kind {
      assert Shapes(c, s)[i] == Shapes(c, t)[i];
    }
    SameKindsSameShape(s, t);
    assert Shapes(c, Live(s)) == Shapes(c, s)[..SizeOf(s)];
    assert Shapes(c, Live(t)) == Shapes(c, t)[..SizeOf(t)];
  }

  /** Clearing the auras of the live prefix keeps the shape. */
  lemma ClearedAurasSameShape(c: Catalog, s: seq<Minion>)
    ensures SameAuraShape(c, s, MapPrefix(s, SizeOf(s), ClearAuraBuff, false))
  {
    var r := MapPrefix(s, SizeOf(s), ClearAuraBuff, false);
    forall i | 0 <= i < |s| ensures ShapeOf(c, r[i]) == ShapeOf(c, s[i]) {
      if i < SizeOf(s) {
        assert r[i] == ClearAuraBuff(s[i]);
      }
    }
    assert Shapes(c, s) == Shapes(c, r);
  }

  /** Old Murk-Eye's count: the murlocs of the live prefix plus `enemyMurlocs` from the other board. */
  function MurlocCount(c: Catalog, s: seq<Minion>, enemyMurlocs: int): int {
    Count(Live(s), IsOfTribe(c, Tribe.Murloc)) + enemyMurlocs
  }

  lemma MurlocCountSameShape(c: Catalog, s: seq<Minion>, t: seq<Minion>, e: int)
    requires SameAuraShape(c, s, t)
    ensures MurlocCount(c, s, e) == MurlocCount(c, t, e)
  {
    SameShapeLive(c, s, t);
    SameShapeCount(c, Live(s), Live(t), Tribe.Murloc);
  }

  /** What each minion of the live prefix receives from all the auras of the live prefix. */
  function AuraSums(c: Catalog, s: seq<Minion>, e: int): (g: seq<Gain>)
    ensures |g| == SizeOf(s)
  {
    var live := Shapes(c, Live(s));
    var murlocs := MurlocCount(c, s, e);
    seq(|live|, k requires 0 <= k < |live| => AuraSum(live, murlocs, |live|, k))
  }

  /** Every minion below |g| loses its old aura and receives gain g[k]; later slots are untouched. */
  function ApplyGains(s: seq<Minion>, g: seq<Gain>): (r: seq<Minion>)
    requires |g| <= |s|
    ensures |r| == |s|
  {
    seq(|s|, k requires 0 <= k < |s| =>
      if k < |g| then AuraBuff(ClearAuraBuff(s[k]), g[k].attack, g[k].health) else s[k])
  }

  /** `recompute_auras` as a function: every minion of the live prefix loses its old aura and
      receives the sum of the auras of the sources in the live prefix; later slots are untouched. */
  function WithAuras(c: Catalog, s: seq<Minion>, e: int): (r: seq<Minion>)
    ensures |r| == |s|
  {
    ApplyGains(s, AuraSums(c, s, e))
  }

  /** Applying gains changes no type, keyword or permanent stat: clearing the aura of the
      result gives what clearing the aura of the input gives. */
  lemma ApplyGainsKeepsPermanentState(c: Catalog, s: seq<Minion>, g: seq<Gain>)
    requires |g| <= |s|
    ensures SameAuraShape(c, s, ApplyGains(s, g))
    ensures forall k :: 0 <= k < |g| ==> ClearAuraBuff(ApplyGains(s, g)[k]) == ClearAuraBuff(s[k])
  {
    var w := ApplyGains(s, g);
    forall k | 0 <= k < |s| ensures ShapeOf(c, w[k]) == ShapeOf(c, s[k]) {
    }
    assert Shapes(c, s) == Shapes(c, w);
  }

  /** Recomputing auras changes no type, keyword or permanent stat. */
  lemma WithAurasKeepsPermanentState(c: Catalog, s: seq<Minion>, e: int)
    ensures SameAuraShape(c, s, WithAuras(c, s, e))
    ensures forall k :: 0 <= k < SizeOf(s) ==> ClearAuraBuff(WithAuras(c, s, e)[k]) == ClearAuraBuff(s[k])
  {
    ApplyGainsKeepsPermanentState(c, s, AuraSums(c, s, e));
  }

  /** No aura source among the first k shapes. */
  predicate NoSourceBefore(live: seq<AuraShape>, k: nat)
    requires k <= |live|
  {
    k == 0 || (!IsAuraSource(live[k - 1].kind) && NoSourceBefore(live, k - 1))
  }

  /** Without an aura source before index k nothing is added. */
  lemma {:induction false} NoSourceNoAura(live: seq<AuraShape>, e: int, k: nat, i: nat)
    requires k <= |live| && i < |live|
    requires NoSourceBefore(live, k)
    ensures AuraSum(live, e, k, i) == NoGain
  {
    if k > 0 {
      NoSourceNoAura(live, e, k - 1, i);
      NoSourceStep(live, e, k, i);
    }
  }

  lemma NoSourceStep(live: seq<AuraShape>, e: int, k: nat, i: nat)
    requires 0 < k <= |live| && i < |live|
    requires !IsAuraSource(live[k - 1].kind)
    ensures AuraSum(live, e, k, i) == AuraSum(live, e, k - 1, i)
  {
  }

  /** `after` is `before` with the aura of index `pos` of the live prefix applied: every live
      index gains what `AuraFrom` gives it, every later slot is unchanged. */
  ghost predicate AuraApplied(live: seq<AuraShape>, murlocs: int, pos: nat, before: seq<Minion>, after: seq<Minion>) {
    && pos < |live| <= |before| == |after|
    && (forall k :: 0 <= k < |live| ==>
          var add := AuraFrom(live, murlocs, pos, k);
          after[k] == AuraBuff(before[k], add.attack, add.health))
    && (forall k :: |live| <= k < |before| ==> after[k] == before[k])
  }

  /** `r` is `cleared` with the auras of indices 0..n-1 of the live prefix applied. */
  ghost predicate Accumulated(live: seq<AuraShape>, murlocs: int, cleared: seq<Minion>, n: nat, r: seq<Minion>) {
    && n <= |live| <= |cleared| == |r|
    && (forall k :: 0 <= k < |live| ==>
          var sum := AuraSum(live, murlocs, n, k);
          r[k] == AuraBuff(cleared[k], sum.attack, sum.health))
    && (forall k :: |live| <= k < |r| ==> r[k] == cleared[k])
  }

  /** `live` lists the shapes of the live prefix of `s`, slot by slot. */
  ghost predicate ShapesOf(c: Catalog, s: seq<Minion>, live: seq<AuraShape>) {
    && |live| == SizeOf(s)
    && forall i :: 0 <= i < |live| ==> live[i] == ShapeOf(c, s[i])
  }

  lemma LiveShapes(c: Catalog, s: seq<Minion>)
    ensures ShapesOf(c, s, Shapes(c, Live(s)))
  {
  }

  // The four branches of `recompute_aura_from`, each restated as `AuraFrom` on the shapes of the
  // live prefix: first slot by slot, then for the whole board.

  lemma AdjacentAt(live: seq<AuraShape>, murlocs: int, pos: nat, si: Minion, ri: Minion, i: nat)
    requires pos < |live| && i < |live| && live[pos].kind == DireWolfAlpha
    requires ri == if i + 1 == pos || i == pos + 1
                   then AuraBuff(si, DoubleIfGolden(1, live[pos].golden), 0) else si
    ensures var add := AuraFrom(live, murlocs, pos, i);
      ri == AuraBuff(si, add.attack, add.health)
  {
  }

  lemma AdjacentIsAuraFrom(c: Catalog, s: seq<Minion>, live: seq<AuraShape>, murlocs: int, pos: nat, r: seq<Minion>)
    requires LivePrefix(s) && ShapesOf(c, s, live) && pos < |live| && |r| == |s|
    requires s[pos].kind == DireWolfAlpha
    requires forall i :: 0 <= i < |s| ==>
      r[i] == if (i + 1 == pos || i == pos + 1) && Exists(s[i])
              then AuraBuff(s[i], DoubleIfGolden(1, s[pos].golden), 0) else s[i]
    ensures AuraApplied(live, murlocs, pos, s, r)
  {
    assert live[pos] == ShapeOf(c, s[pos]);
    forall k | 0 <= k < |live|
      ensures var add := AuraFrom(live, murlocs, pos, k);
        r[k] == AuraBuff(s[k], add.attack, add.health)
    {
      assert Exists(s[k]);
      AdjacentAt(live, murlocs, pos, s[k], r[k], k);
    }
    forall k | |live| <= k < |s|
      ensures r[k] == s[k]
    {
      assert !Exists(s[k]);
    }
  }

  lemma SelfAt(live: seq<AuraShape>, murlocs: int, pos: nat, si: Minion, ri: Minion, i: nat)
    requires pos < |live| && i < |live| && live[pos].kind == OldMurkEye
    requires ri == if i == pos then AuraBuff(si, DoubleIfGolden(murlocs - 1, live[pos].golden), 0) else si
    ensures var add := AuraFrom(live, murlocs, pos, i);
      ri == AuraBuff(si, add.attack, add.health)
  {
  }

  lemma SelfIsAuraFrom(c: Catalog, s: seq<Minion>, live: seq<AuraShape>, murlocs: int, pos: nat, r: seq<Minion>)
    requires ShapesOf(c, s, live) && pos < |live| && |r| == |s|
    requires s[pos].kind == OldMurkEye
    requires r == s[pos := AuraBuff(s[pos], DoubleIfGolden(murlocs - 1, s[pos].golden), 0)]
    ensures AuraApplied(live, murlocs, pos, s, r)
  {
    assert live[pos] == ShapeOf(c, s[pos]);
    forall k | 0 <= k < |live|
      ensures var add := AuraFrom(live, murlocs, pos, k);
        r[k] == AuraBuff(s[k], add.attack, add.health)
    {
      SelfAt(live, murlocs, pos, s[k], r[k], k);
    }
  }

  lemma OthersAt(live: seq<AuraShape>, murlocs: int, pos: nat, si: Minion, ri: Minion, i: nat)
    requires pos < |live| && i < |live| && IsOthersSource(live[pos].kind)
    requires var amount := OthersAmount(live[pos].kind, live[pos].golden);
      ri == if i != pos && OthersTest(live[pos].kind, live[i])
            then AuraBuff(si, amount.attack, amount.health) else si
    ensures var add := AuraFrom(live, murlocs, pos, i);
      ri == AuraBuff(si, add.attack, add.health)
  {
  }

  lemma OthersIsAuraFrom(c: Catalog, s: seq<Minion>, live: seq<AuraShape>, murlocs: int, pos: nat, r: seq<Minion>)
    requires ShapesOf(c, s, live) && pos < |live| && |r| == |s|
    requires IsOthersSource(s[pos].kind)
    requires forall i :: 0 <= i < |s| ==>
      var amount := OthersAmount(s[pos].kind, s[pos].golden);
      r[i] == if i != pos && i < SizeOf(s) && OthersCondition(c, s[pos].kind)(s[i])
              then AuraBuff(s[i], amount.attack, amount.health) else s[i]
    ensures AuraApplied(live, murlocs, pos, s, r)
  {
    assert live[pos] == ShapeOf(c, s[pos]);
    forall k | 0 <= k < |live|
      ensures var add := AuraFrom(live, murlocs, pos, k);
        r[k] == AuraBuff(s[k], add.attack, add.health)
    {
      assert live[k] == ShapeOf(c, s[k]);
      assert OthersCondition(c, s[pos].kind)(s[k]) == OthersTest(live[pos].kind, live[k]);
      OthersAt(live, murlocs, pos, s[k], r[k], k);
    }
  }

  lemma NoneIsAuraFrom(c: Catalog, s: seq<Minion>, live: seq<AuraShape>, murlocs: int, pos: nat)
    requires ShapesOf(c, s, live) && pos < |live|
    requires !IsAuraSource(s[pos].kind)
    ensures AuraApplied(live, murlocs, pos, s, s)
  {
    assert live[pos] == ShapeOf(c, s[pos]);
    forall k | 0 <= k < |live|
      ensures var add := AuraFrom(live, murlocs, pos, k);
        s[k] == AuraBuff(s[k], add.attack, add.health)
    {
      assert AuraFrom(live, murlocs, pos, k) == NoGain;
    }
  }

  /** One step of `recompute_auras`' loop: applying the aura of index i to a board holding the
      sum of the auras of indices 0..i-1 gives the sum of those of 0..i. */
  lemma AuraStep(c: Catalog, live: seq<AuraShape>, murlocs: int, cleared: seq<Minion>,
                 before: seq<Minion>, after: seq<Minion>, i: nat)
    requires Accumulated(live, murlocs, cleared, i, before)
    requires AuraApplied(live, murlocs, i, before, after)
    ensures Accumulated(live, murlocs, cleared, i + 1, after)
    ensures Shapes(c, after) == Shapes(c, before)
  {
    assert forall k :: 0 <= k < |after| ==> ShapeOf(c, after[k]) == ShapeOf(c, before[k]);
  }

  /** The state `recompute_auras`' loop ends in is `WithAuras`. */
  lemma WithAurasFromLoop(c: Catalog, s: seq<Minion>, e: int, live: seq<AuraShape>, murlocs: int,
                           cleared: seq<Minion>, r: seq<Minion>)
    requires live == Shapes(c, Live(s)) && murlocs == MurlocCount(c, s, e)
    requires cleared == MapPrefix(s, SizeOf(s), ClearAuraBuff, false)
    requires Accumulated(live, murlocs, cleared, |live|, r)
    ensures r == WithAuras(c, s, e)
  {
  }

  /** Recomputing auras twice is the same as once. */
  lemma WithAurasIdempotent(c: Catalog, s: seq<Minion>, e: int)
    ensures WithAuras(c, WithAuras(c, s, e), e) == WithAuras(c, s, e)
  {
    var w := WithAuras(c, s, e);
    WithAurasKeepsPermanentState(c, s, e);
    SameShapeLive(c, s, w);
    MurlocCountSameShape(c, s, w, e);
    assert AuraSums(c, w, e) == AuraSums(c, s, e);
  }

  // ---------------------------------------------------------------------------
  // The board

  /** The slots of `s` after `aura_buff_others_if` has visited slots 0..n-1. */
  function BuffedOthersBelow(s: seq<Minion>, attack: int, health: int, pos: int, p: Minion -> bool, n: nat): (r: seq<Minion>)
    ensures |r| == |s|
  {
    seq(|s|, j requires 0 <= j < |s| =>
      if j < n && j != pos && p(s[j]) then AuraBuff(s[j], attack, health) else s[j])
  }

  lemma BuffedOthersStep(s: seq<Minion>, attack: int, health: int, pos: int, p: Minion -> bool, n: nat)
    requires n < |s|
    ensures BuffedOthersBelow(s, attack, health, pos, p, n + 1)
         == BuffedOthersBelow(s, attack, health, pos, p, n)[n := if n != pos && p(s[n]) then AuraBuff(s[n], attack, health) else s[n]]
  {
  }

  /** The scan of `ScanForPick` stops at slot i: it is the n-th match of the live prefix. */
  lemma PickFound(s: seq<Minion>, p: Minion -> bool, n: nat, i: nat)
    requires i < SizeOf(s) && p(s[i]) && Count(s[..i], p) == n
    ensures NthIndex(Live(s), p, n) == i
  {
    assert Live(s)[..i] == s[..i];
    NthIndexUnique(Live(s), p, n, i);
  }

  /** The scan of `ScanForPick` runs off the live prefix: there is no n-th match. */
  lemma PickMissing(s: seq<Minion>, p: Minion -> bool, n: nat, i: nat)
    requires i == SizeOf(s) && Count(s[..i], p) <= n
    ensures NthIndex(Live(s), p, n) == -1
  {
    assert s[..i] == Live(s);
    NthIndexFound(Live(s), p, n);
  }

  class Board {
    /** The slots (board.hpp's Board derives from its MinionArray copy). */
    const base: MinionArray
    const trackPos: array<int>
    var nextAttacker: int
    var heroPower: HeroPower
    /** Index of the hero in the catalog's hero list (0: none), set by the board parsers. */
    var hero: nat
    var level: int
    var health: int

    ghost predicate Valid() {
      base.Valid() && base.capacity == BoardSize && trackPos.Length == NumExtraPos
    }

    function Slots(): seq<Minion>
      reads base.minions
    {
      base.minions[..]
    }

    /** The invariant every battle keeps: the live prefix, a non-negative next attacker and a
        first tracked position that is -1 or names a live minion. */
    ghost predicate Good()
      reads this, base, base.minions, trackPos
    {
      Valid() && LivePrefix(Slots()) && nextAttacker >= 0 && TrackValid(trackPos[0], SizeOf(Slots()))
    }

    /** `Board()`: no minions, next attacker 0, tracked positions `{-1}` (that is -1, 0, 0). */
    constructor()
      ensures Good() && fresh(base) && fresh(base.minions) && fresh(trackPos)
      ensures Slots() == seq(BoardSize, _ => Empty()) && SizeOf(Slots()) == 0
      ensures trackPos[..] == [-1, 0, 0] && nextAttacker == 0
      ensures heroPower == HeroPower.None && hero == 0 && level == 0 && health == 0
    {
      base := new MinionArray(BoardSize);
      trackPos := new int[NumExtraPos](i => if i == 0 then -1 else 0);
      nextAttacker := 0;
      heroPower := HeroPower.None;
      hero := 0;
      level := 0;
      health := 0;
      new;
      assert trackPos[..] == [-1, 0, 0];
    }

    /** `insert(pos, m)`: the array insert, then the next attacker and the tracked positions
        follow the shifted minions. The tracked positions use the corrected rule (see
        `TrackAfterInsertAsWritten` for the source's). */
    method Insert(pos: int, m: Minion) returns (ok: bool)
      requires Valid() && 0 <= pos < BoardSize
      modifies this, base.minions, trackPos
      ensures ok == !old(base.IsFull())
      ensures Slots() == if ok then Inserted(old(Slots()), pos, m) else old(Slots())
      ensures nextAttacker == if ok then NextAttackerAfterInsert(old(nextAttacker), pos) else old(nextAttacker)
      ensures trackPos[..] == if ok then TracksAfterInsert(old(trackPos[..]), pos) else old(trackPos[..])
      ensures heroPower == old(heroPower) && hero == old(hero) && level == old(level) && health == old(health)
    {
      ok := base.Insert(pos, m);
      if !ok {
        return;
      }
      ghost var s := Slots();
      if nextAttacker > pos {
        nextAttacker := nextAttacker + 1;
      }
      var i := 0;
      while i < NumExtraPos
        invariant 0 <= i <= NumExtraPos && Slots() == s
        invariant nextAttacker == NextAttackerAfterInsert(old(nextAttacker), pos)
        invariant heroPower == old(heroPower) && hero == old(hero) && level == old(level) && health == old(health)
        invariant forall j :: 0 <= j < i ==> trackPos[j] == TrackAfterInsert(old(trackPos[j]), pos)
        invariant forall j :: i <= j < NumExtraPos ==> trackPos[j] == old(trackPos[j])
      {
        if trackPos[i] >= pos {
          trackPos[i] := trackPos[i] + 1;
        }
        i := i + 1;
      }
    }

    /** `remove(pos)`: the array remove, then the next attacker and tracked positions follow. */
    method Remove(pos: int)
      requires Valid() && 0 <= pos < BoardSize
      modifies this, base.minions, trackPos
      ensures Slots() == Removed(old(Slots()), pos)
      ensures nextAttacker == NextAttackerAfterRemove(old(nextAttacker), pos)
      ensures trackPos[..] == TracksAfterRemove(old(trackPos[..]), pos)
      ensures heroPower == old(heroPower) && hero == old(hero) && level == old(level) && health == old(health)
    {
      base.Remove(pos);
      ghost var s := Slots();
      if pos < nextAttacker {
        nextAttacker := nextAttacker - 1;
      }
      var i := 0;
      while i < NumExtraPos
        invariant 0 <= i <= NumExtraPos && Slots() == s
        invariant nextAttacker == NextAttackerAfterRemove(old(nextAttacker), pos)
        invariant heroPower == old(heroPower) && hero == old(hero) && level == old(level) && health == old(health)
        invariant forall j :: 0 <= j < i ==> trackPos[j] == TrackAfterRemove(old(trackPos[j]), pos)
        invariant forall j :: i <= j < NumExtraPos ==> trackPos[j] == old(trackPos[j])
      {
        if pos < trackPos[i] {
          trackPos[i] := trackPos[i] - 1;
        } else if pos == trackPos[i] {
          trackPos[i] := -1;
        }
        i := i + 1;
      }
    }

    /** The countdown scan the three pickers share: the index of the live minion that is the
        `pick`-th (from 0) to satisfy `p`. */
    method ScanForPick(p: Minion -> bool, pick: int) returns (t: int)
      requires Valid() && 0 <= pick
      ensures t == NthIndex(Live(Slots()), p, pick)
    {
      ghost var s := Slots();
      ghost var n: nat := pick;
      var left := pick;
      var i := 0;
      while i < BoardSize && Exists(base.minions[i])
        invariant 0 <= i <= SizeOf(s)
        invariant Count(s[..i], p) <= n && left == n - Count(s[..i], p)
      {
        CountSnoc(s, i, p);
        if p(base.minions[i]) {
          if left == 0 {
            PickFound(s, p, n, i);
            return i;
          }
          left := left - 1;
        }
        i := i + 1;
      }
      PickMissing(s, p, n, i);
      return -1;
    }

    /** `random_attack_target`: count taunts and minions, then draw among the taunts if any. */
    method RandomAttackTarget(rng: RNG) returns (t: int)
      requires Valid()
      modifies rng
      ensures t == AttackTarget(Live(Slots()), old(rng.state))
      ensures rng.state == if SizeOf(Slots()) == 0 then old(rng.state) else Step(old(rng.state))
    {
      var numTaunts := base.CountIf(Taunted);
      var numMinions := base.Size();
      if numTaunts > 0 {
        var pick := rng.Random(numTaunts);
        t := ScanForPick(Taunted, pick);
      } else if numMinions == 0 {
        t := -1;
      } else {
        t := rng.Random(numMinions);
      }
    }

    /** The first loop of `lowest_attack_target`: the lowest attack and how often it occurs. */
    method ScanLowest() returns (lowest: int, numLowest: int)
      requires Valid()
      ensures lowest == Lowest(Live(Slots()))
      ensures numLowest == Count(Live(Slots()), HasAttack(lowest))
    {
      ghost var s := Slots();
      numLowest, lowest := 0, IntMax;
      var i := 0;
      while i < BoardSize && Exists(base.minions[i])
        invariant 0 <= i <= SizeOf(s)
        invariant lowest == Lowest(s[..i]) && numLowest == Count(s[..i], HasAttack(lowest))
      {
        var a := base.minions[i].attack;
        assert s[..i + 1][..i] == s[..i];
        if a < lowest {
          CountZero(s[..i], HasAttack(a));
          numLowest := 1;
          lowest := a;
        } else if a == lowest {
          numLowest := numLowest + 1;
        }
        i := i + 1;
      }
      EmptyFromUnique(s, 0, i);
      assert s[..i] == Live(s);
    }

    /** `lowest_attack_target`: find the lowest attack and its multiplicity, then draw. */
    method LowestAttackTarget(rng: RNG) returns (t: int)
      requires Valid()
      modifies rng
      ensures t == LowestTarget(Live(Slots()), old(rng.state))
      ensures rng.state == if t == -1 then old(rng.state) else Step(old(rng.state))
    {
      var lowest, numLowest := ScanLowest();
      if numLowest == 0 {
        // The source draws from an empty range here (all attacks above IntMax).
        t := -1;
      } else {
        var pick := rng.Random(numLowest);
        t := ScanForPick(HasAttack(lowest), pick);
        NthIndexFound(Live(Slots()), HasAttack(lowest), pick);
      }
    }

    /** `random_living_minion`: -1 without drawing when nothing is alive. */
    method RandomLivingMinion(rng: RNG) returns (t: int)
      requires Valid()
      modifies rng
      ensures t == LivingTarget(Live(Slots()), old(rng.state))
      ensures rng.state == if Count(Live(Slots()), NotDead) == 0 then old(rng.state) else Step(old(rng.state))
    {
      var numAlive := base.CountIf(NotDead);
      if numAlive == 0 {
        t := -1;
      } else {
        var pick := rng.Random(numAlive);
        t := ScanForPick(NotDead, pick);
      }
    }

    /** `has_minion(type)` over the living minions. */
    method HasMinion(t: MinionType) returns (have: int)
      requires Valid()
      ensures have == HaveLevel(Live(Slots()), t)
    {
      ghost var s := Slots();
      have := 0;
      var i := 0;
      while i < BoardSize && Exists(base.minions[i])
        invariant 0 <= i <= SizeOf(s)
        invariant have == HaveLevel(s[..i], t)
      {
        HaveLevelStep(s, t, i);
        var m := base.minions[i];
        if !Dead(m) && m.kind == t {
          have := Max(have, if m.golden then 2 else 1);
        }
        i := i + 1;
      }
      EmptyFromUnique(s, 0, i);
      assert s[..i] == Live(s);
    }

    /** `extra_summon_count()`: Khadgar doubles summons, a golden one triples them. */
    method ExtraSummonCount() returns (n: int)
      requires Valid()
      ensures n == HaveLevel(Live(Slots()), Khadgar) + 1 && 1 <= n <= 3
    {
      n := HasMinion(Khadgar);
      n := n + 1;
    }

    /** `extra_deathrattle_count()`: Baron Rivendare. */
    method ExtraDeathrattleCount() returns (n: int)
      requires Valid()
      ensures n == HaveLevel(Live(Slots()), BaronRivendare) + 1 && 1 <= n <= 3
    {
      n := HasMinion(BaronRivendare);
      n := n + 1;
    }

    /** `extra_battlecry_count()`: Brann Bronzebeard. */
    method ExtraBattlecryCount() returns (n: int)
      requires Valid()
      ensures n == HaveLevel(Live(Slots()), BrannBronzebeard) + 1 && 1 <= n <= 3
    {
      n := HasMinion(BrannBronzebeard);
      n := n + 1;
    }

    method TotalStars(c: Catalog) returns (total: int)
      requires Valid()
      ensures total == StarsOf(c, Live(Slots()))
    {
      ghost var s := Slots();
      total := 0;
      var i := 0;
      while i < BoardSize && Exists(base.minions[i])
        invariant 0 <= i <= SizeOf(s)
        invariant total == StarsOf(c, s[..i])
      {
        assert s[..i + 1][..i] == s[..i];
        total := total + Stars(c, base.minions[i]);
        i := i + 1;
      }
      EmptyFromUnique(s, 0, i);
      assert s[..i] == Live(s);
    }

    method TotalStats() returns (total: int)
      requires Valid()
      ensures total == StatsOf(Live(Slots()))
    {
      ghost var s := Slots();
      total := 0;
      var i := 0;
      while i < BoardSize && Exists(base.minions[i])
        invariant 0 <= i <= SizeOf(s)
        invariant total == StatsOf(s[..i])
      {
        assert s[..i + 1][..i] == s[..i];
        total := total + base.minions[i].attack + base.minions[i].health;
        i := i + 1;
      }
      EmptyFromUnique(s, 0, i);
      assert s[..i] == Live(s);
    }

    /** board.hpp's `for_each_with_pos`, which unlike the array's skips dead minions. */
    method ForEachWithPos(f: (int, Minion) -> Minion)
      requires Valid()
      modifies base.minions
      ensures forall i :: 0 <= i < BoardSize ==>
        Slots()[i] == if i < SizeOf(old(Slots())) && !Dead(old(Slots())[i]) then f(i, old(Slots())[i])
                      else old(Slots())[i]
    {
      ghost var s := Slots();
      var i := 0;
      while i < BoardSize && Exists(base.minions[i])
        invariant 0 <= i <= SizeOf(s)
        invariant forall j :: 0 <= j < i ==> base.minions[j] == if !Dead(s[j]) then f(j, s[j]) else s[j]
        invariant forall j :: i <= j < BoardSize ==> base.minions[j] == s[j]
      {
        if !Dead(base.minions[i]) {
          base.minions[i] := f(i, base.minions[i]);
        }
        i := i + 1;
      }
      EmptyFromUnique(s, 0, i);
    }

    /** `buff_all_if(attack, health, c)`: a permanent buff for every living minion satisfying c. */
    method BuffAllIf(attack: int, health: int, p: Minion -> bool)
      requires Valid()
      modifies base.minions
      ensures forall i :: 0 <= i < BoardSize ==>
        Slots()[i] == if i < SizeOf(old(Slots())) && !Dead(old(Slots())[i]) && p(old(Slots())[i])
                      then Buff(old(Slots())[i], attack, health) else old(Slots())[i]
    {
      base.ForEach(m => if p(m) then Buff(m, attack, health) else m, true);
    }

    /** `buff_all(attack, health)`: every living minion. */
    method BuffAll(attack: int, health: int)
      requires Valid()
      modifies base.minions
      ensures forall i :: 0 <= i < BoardSize ==>
        Slots()[i] == if i < SizeOf(old(Slots())) && !Dead(old(Slots())[i])
                      then Buff(old(Slots())[i], attack, health) else old(Slots())[i]
    {
      base.ForEach(m => Buff(m, attack, health), true);
    }

    /** `give_random_minion_divine_shield`: one drawn living minion gets divine shield. */
    method GiveRandomMinionDivineShield(rng: RNG)
      requires Valid()
      modifies base.minions, rng
      ensures var t := LivingTarget(Live(old(Slots())), old(rng.state));
        Slots() == if t == -1 then old(Slots()) else old(Slots())[t := old(Slots())[t].(divineShield := true)]
      ensures rng.state == if Count(Live(old(Slots())), NotDead) == 0 then old(rng.state) else Step(old(rng.state))
    {
      LivingTargetFacts(Live(Slots()), rng.state);
      var i := RandomLivingMinion(rng);
      if i != -1 {
        base.minions[i] := base.minions[i].(divineShield := true);
      }
    }

    /** `buff_random_minion(attack, health)`: one drawn living minion gets a permanent buff. */
    method BuffRandomMinion(attack: int, health: int, rng: RNG)
      requires Valid()
      modifies base.minions, rng
      ensures var t := LivingTarget(Live(old(Slots())), old(rng.state));
        Slots() == if t == -1 then old(Slots()) else old(Slots())[t := Buff(old(Slots())[t], attack, health)]
      ensures rng.state == if Count(Live(old(Slots())), NotDead) == 0 then old(rng.state) else Step(old(rng.state))
    {
      LivingTargetFacts(Live(Slots()), rng.state);
      var i := RandomLivingMinion(rng);
      if i != -1 {
        base.minions[i] := Buff(base.minions[i], attack, health);
      }
    }

    /** `clear_auras()`: every minion of the live prefix, dead or not, loses its aura. */
    method ClearAuras()
      requires Valid()
      modifies base.minions
      ensures Slots() == MapPrefix(old(Slots()), SizeOf(old(Slots())), ClearAuraBuff, false)
    {
      base.ForEach(ClearAuraBuff, false);
    }

    /** `aura_buff_others_if`: every minion of the live prefix except slot `pos`, dead ones too. */
    method AuraBuffOthersIf(attack: int, health: int, pos: int, p: Minion -> bool)
      requires Valid()
      modifies base.minions
      ensures forall i :: 0 <= i < BoardSize ==>
        Slots()[i] == if i != pos && i < SizeOf(old(Slots())) && p(old(Slots())[i])
                      then AuraBuff(old(Slots())[i], attack, health) else old(Slots())[i]
    {
      ghost var s := Slots();
      var i := 0;
      while i < BoardSize && Exists(base.minions[i])
        invariant 0 <= i <= SizeOf(s)
        invariant Slots() == BuffedOthersBelow(s, attack, health, pos, p, i)
      {
        BuffedOthersStep(s, attack, health, pos, p, i);
        if i != pos && p(base.minions[i]) {
          ghost var before := Slots();
          base.minions[i] := AuraBuff(base.minions[i], attack, health);
          assert Slots() == before[i := AuraBuff(s[i], attack, health)];
        }
        i := i + 1;
      }
      EmptyFromUnique(s, 0, i);
    }

    /** `aura_buff_adjacent`: the existing neighbours at pos-1 and pos+1. */
    method AuraBuffAdjacent(attack: int, health: int, pos: int)
      requires Valid() && -1 <= pos <= BoardSize
      modifies base.minions
      ensures forall i :: 0 <= i < BoardSize ==>
        Slots()[i] == if (i + 1 == pos || i == pos + 1) && Exists(old(Slots())[i])
                      then AuraBuff(old(Slots())[i], attack, health) else old(Slots())[i]
    {
      if pos > 0 && Exists(base.minions[pos - 1]) {
        base.minions[pos - 1] := AuraBuff(base.minions[pos - 1], attack, health);
      }
      if pos + 1 < BoardSize && Exists(base.minions[pos + 1]) {
        base.minions[pos + 1] := AuraBuff(base.minions[pos + 1], attack, health);
      }
    }

    /** Old Murk-Eye's branch of `recompute_aura_from`: +1 attack (+2 golden) for every other
        murloc on both boards. */
    method OldMurkEyeAura(c: Catalog, pos: int, enemyMurlocs: int)
      requires Valid() && 0 <= pos < SizeOf(Slots())
      modifies base.minions
      ensures var s := old(Slots());
        Slots() == s[pos := AuraBuff(s[pos], DoubleIfGolden(MurlocCount(c, s, enemyMurlocs) - 1, s[pos].golden), 0)]
    {
      ghost var s := Slots();
      var m := base.minions[pos];
      var count := base.CountIf(IsOfTribe(c, Tribe.Murloc));
      var buffed := AuraBuff(m, DoubleIfGolden(-1 + count + enemyMurlocs, m.golden), 0);
      base.minions[pos] := buffed;
      assert Slots() == s[pos := buffed];
    }

    /** Dire Wolf Alpha's branch of `recompute_aura_from`, as `AuraFrom` gives it. */
    method DireWolfAura(c: Catalog, pos: int, ghost live: seq<AuraShape>, ghost murlocs: int)
      requires Valid() && LivePrefix(Slots()) && 0 <= pos < SizeOf(Slots()) && ShapesOf(c, Slots(), live)
      requires Slots()[pos].kind == DireWolfAlpha
      modifies base.minions
      ensures AuraApplied(live, murlocs, pos, old(Slots()), Slots())
    {
      ghost var s := Slots();
      AuraBuffAdjacent(DoubleIfGolden(1, base.minions[pos].golden), 0, pos);
      AdjacentIsAuraFrom(c, s, live, murlocs, pos, Slots());
    }

    /** The branch of `recompute_aura_from` for the auras on other minions of the board. */
    method OthersAura(c: Catalog, pos: int, ghost live: seq<AuraShape>, ghost murlocs: int)
      requires Valid() && 0 <= pos < SizeOf(Slots()) && ShapesOf(c, Slots(), live)
      requires IsOthersSource(Slots()[pos].kind)
      modifies base.minions
      ensures AuraApplied(live, murlocs, pos, old(Slots()), Slots())
    {
      ghost var s := Slots();
      var m := base.minions[pos];
      var amount := OthersAmount(m.kind, m.golden);
      AuraBuffOthersIf(amount.attack, amount.health, pos, OthersCondition(c, m.kind));
      OthersIsAuraFrom(c, s, live, murlocs, pos, Slots());
    }

    /** `recompute_aura_from` for the minion in slot `pos` of the live prefix: every minion of
        the prefix receives what `AuraFrom` says that slot gives it; the answer says whether the
        minion has an aura at all. `live` and `murlocs` name the shapes of the live prefix and
        Old Murk-Eye's count. */
    method RecomputeAuraFrom(c: Catalog, pos: int, enemyMurlocs: int, ghost live: seq<AuraShape>, ghost murlocs: int)
      returns (isAura: bool)
      requires Valid() && LivePrefix(Slots()) && 0 <= pos < SizeOf(Slots())
      requires ShapesOf(c, Slots(), live) && murlocs == MurlocCount(c, Slots(), enemyMurlocs)
      modifies base.minions
      ensures isAura == IsAuraSource(old(Slots())[pos].kind)
      ensures AuraApplied(live, murlocs, pos, old(Slots()), Slots())
    {
      var kind := base.minions[pos].kind;
      isAura := true;
      if kind == DireWolfAlpha {
        DireWolfAura(c, pos, live, murlocs);
      } else if kind == OldMurkEye {
        ghost var s := Slots();
        OldMurkEyeAura(c, pos, enemyMurlocs);
        SelfIsAuraFrom(c, s, live, murlocs, pos, Slots());
      } else if IsOthersSource(kind) {
        // Murloc Warleader, Phalanx Commander, Siegebreaker and Mal'Ganis
        OthersAura(c, pos, live, murlocs);
      } else {
        isAura := false;
        NoneIsAuraFrom(c, Slots(), live, murlocs, pos);
      }
    }

    /** `recompute_auras`: clear every aura, then let each minion of the live prefix apply its
        own; the result is `WithAuras` of the old slots. */
    method RecomputeAuras(c: Catalog, enemyMurlocs: int)
      requires Valid() && LivePrefix(Slots())
      modifies base.minions
      ensures Slots() == WithAuras(c, old(Slots()), enemyMurlocs)
    {
      ghost var s := Slots();
      ghost var live := Shapes(c, Live(s));
      ghost var murlocs := MurlocCount(c, s, enemyMurlocs);
      ClearAuras();
      ghost var cleared := Slots();
      ClearedAurasSameShape(c, s);
      SameShapeLive(c, s, cleared);
      var i := 0;
      while i < BoardSize && Exists(base.minions[i])
        invariant 0 <= i <= |live| == SizeOf(s)
        invariant SameAuraShape(c, s, Slots())
        invariant Accumulated(live, murlocs, cleared, i, Slots())
      {
        ghost var before := Slots();
        SameShapeLive(c, s, before);
        MurlocCountSameShape(c, s, before, enemyMurlocs);
        assert Shapes(c, Live(before)) == live && MurlocCount(c, before, enemyMurlocs) == murlocs;
        LiveShapes(c, before);
        var _ := RecomputeAuraFrom(c, i, enemyMurlocs, live, murlocs);
        AuraStep(c, live, murlocs, cleared, before, Slots(), i);
        i := i + 1;
      }
      SameShapeLive(c, s, Slots());
      assert i == |live|;
      WithAurasFromLoop(c, s, enemyMurlocs, live, murlocs, cleared, Slots());
    }
  }
}
