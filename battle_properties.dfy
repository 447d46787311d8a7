// What src/battle.hpp, src/battle.cpp and src/hero_powers.cpp promise about a battle, stated
// for the rules of module BattleRules over all battle states.
module BattleProperties {
  import opened Util
  import opened MinionInfo
  import opened Minions
  import opened MinionArrays
  import opened Boards
  import opened MinionEvents
  import opened Tribes
  import opened BattleRules
  import opened Rng

  // ---------------------------------------------------------------------------
  // Summoning

  /** The insert loop of `summon_many` adds one minion per round until it has added `n - i` or
      the board is full. */
  lemma {:induction false} InsertLoopSize(c: Tables, g: BattleState, m: Minion, p: Player, pos: nat, n: int, i: int)
    requires Exists(m) && pos <= Size(g, p)
    ensures Size(InsertLoop(c, g, m, p, pos, n, i), p) == Min(Size(g, p) + Max(n - i, 0), BoardSize)
    decreases n - i
  {
    hide InsertStep;
    hide InsertLoop;
    hide Full;
    hide Extends;
    FullIsSize(g, p);
    if i < n && !Full(g, p) {
      var g1 := InsertStep(c, g, m, p, pos);
      InsertLoopStep(c, g, m, p, pos, n, i);
      InsertLoopSize(c, g1, m, p, pos, n, i + 1);
    } else {
      InsertLoopDone(c, g, m, p, pos, n, i);
    }
  }

  /** `summon_many(count, m, p, pos)` puts `count` times the Khadgar multiplier minions on the
      board, or fills it; a count of 0 (or less) adds nothing. */
  lemma SummonManyCap(c: Tables, g: BattleState, count: int, m: Minion, p: Player, pos: nat)
    requires Exists(m) && pos <= Size(g, p)
    ensures 1 <= ExtraSummons(g, p) <= 3
    ensures Size(SummonMany(c, g, count, m, p, pos), p)
         == Min(Size(g, p) + Max(count * ExtraSummons(g, p), 0), BoardSize)
    ensures count == 0 ==> SummonMany(c, g, count, m, p, pos) == g
  {
    hide InsertLoop, Recompute, Extends, Grows, HaveLevel, WithAuras, SideOf;
    var k := ExtraSummons(g, p);
    if count != 0 {
      InsertLoopSize(c, g, m, p, pos, count * k, 0);
      var g1 := InsertLoop(c, g, m, p, pos, count * k, 0);
      assert SummonMany(c, g, count, m, p, pos) == Recompute(c, g1, p);
    }
  }

  /** The append loop of `summon_for_opponent` fills the enemy board the same way. */
  lemma {:induction false} AppendLoopSize(c: Tables, g: BattleState, m: Minion, p: Player, count: int, i: int)
    requires Exists(m)
    ensures Size(AppendLoop(c, g, m, p, count, i), 1 - p) == Min(Size(g, 1 - p) + Max(count - i, 0), BoardSize)
    decreases count - i
  {
    hide AppendStep;
    hide AppendLoop;
    hide Full;
    hide Extends;
    FullIsSize(g, 1 - p);
    if i < count && !Full(g, 1 - p) {
      var g1 := AppendStep(c, g, m, p);
      AppendLoopStep(c, g, m, p, count, i);
      AppendLoopSize(c, g1, m, p, count, i + 1);
    } else {
      AppendLoopDone(c, g, m, p, count, i);
    }
  }

  /** `summon_for_opponent(m, p)` appends the summoner's Khadgar multiplier copies to the other
      board, up to a full board. */
  lemma SummonForOpponentCap(c: Tables, g: BattleState, m: Minion, p: Player)
    requires Exists(m)
    ensures Size(SummonForOpponent(c, g, m, p), 1 - p) == Min(Size(g, 1 - p) + ExtraSummons(g, p), BoardSize)
  {
    AppendLoopSize(c, g, m, p, ExtraSummons(g, p), 0);
  }

  // ---------------------------------------------------------------------------
  // Damage

  /** No damage, no change. */
  lemma DamageNothing(c: Tables, g: BattleState, p: Player, pos: nat, amount: int, poison: bool)
    requires pos < Size(g, p) && amount <= 0
    ensures Damage(c, g, p, pos, amount, poison) == g
  {
  }

  /** A divine shield takes the hit: it is gone, the health is untouched, and nothing on the
      other board changes. */
  lemma DamageBreaksShield(c: Tables, g: BattleState, p: Player, pos: nat, amount: int, poison: bool)
    requires pos < Size(g, p) && amount > 0 && Slots(g, p)[pos].divineShield
    ensures var r := Damage(c, g, p, pos, amount, poison);
      var before := Slots(g, p)[pos];
      var after := Slots(r, p)[pos];
      && !after.divineShield && after.health == before.health && after.kind == before.kind
      && SideOf(r, 1 - p) == SideOf(g, 1 - p) && r.rng == g.rng
  {
    var m := Slots(g, p)[pos];
    var g1 := WithSlot(g, p, pos, m.(divineShield := false));
    var x := Slots(g1, p)[pos];
    assert x == m.(divineShield := false);
    var y := OnBreakFriendlyDivineShield(x);
    assert !y.divineShield && y.health == m.health && y.kind == m.kind;
    assert Slots(BreakShield(g1, p), p)[pos] == if Dead(x) then x else y;
  }

  /** A hit without a shield lowers the health by the amount; a poisonous hit leaves no positive
      health. A minion that summons nothing when damaged changes in that slot only. */
  lemma DamageHurts(c: Tables, g: BattleState, p: Player, pos: nat, amount: int, poison: bool)
    requires pos < Size(g, p) && amount > 0 && !Slots(g, p)[pos].divineShield
    requires DamagedSummon(Slots(g, p)[pos]) == Option.None
    ensures var r := Damage(c, g, p, pos, amount, poison);
      var m := Slots(g, p)[pos];
      && Slots(r, p) == Slots(g, p)[pos := Hurt(m, amount, poison)]
      && SideOf(r, 1 - p) == SideOf(g, 1 - p) && r.rng == g.rng
      && (poison ==> Dead(Slots(r, p)[pos]))
      && (!poison ==> Slots(r, p)[pos].health == m.health - amount)
  {
    var m := Slots(g, p)[pos];
    var g1 := WithSlot(g, p, pos, Hurt(m, amount, poison));
    assert DamagedSummon(Slots(g1, p)[pos]) == Option.None;
    assert OnDamaged(c, g1, p, pos) == g1;
    assert Damage(c, g, p, pos, amount, poison) == g1;
  }

  // ---------------------------------------------------------------------------
  // Hero powers

  /** The Lich King gives reborn to the rightmost minion, if there is one. */
  lemma LichKingRebornsRightmost(c: Tables, g: BattleState, p: Player)
    ensures var r := HeroPowerEffect(c, g, TheLichKing, p);
      var k := Size(g, p);
      && (k == 0 ==> r == g)
      && (k > 0 ==> Slots(r, p) == Slots(g, p)[k - 1 := Slots(g, p)[k - 1].(reborn := true)]
                    && SideOf(r, 1 - p) == SideOf(g, 1 - p))
  {
    hide DamageAll;
    hide DamageRandomMinion;
  }

  /** Giantfin marks every minion of the board, dead ones included, with one murloc deathrattle. */
  lemma GiantfinMarksEveryMinion(c: Tables, g: BattleState, p: Player)
    ensures var r := HeroPowerEffect(c, g, Giantfin, p);
      && Size(r, p) == Size(g, p) && SideOf(r, Opponent(p)) == SideOf(g, Opponent(p))
      && forall i :: 0 <= i < Size(g, p) ==> Slots(r, p)[i] == Slots(g, p)[i].(deathrattleMurlocs := 1)
  {
    hide HeroPowerEffect, DamageAll, DamageRandomMinion, MapSlots, WithSlot, Extends, Grows;
    GiantfinIsMap(c, g, p);
    var t := MapPrefix(Slots(g, p), Size(g, p), WithMurlocDeathrattle, false);
    forall i | 0 <= i < Size(g, p) ensures t[i] == Slots(g, p)[i].(deathrattleMurlocs := 1) {
      assert t[i] == WithMurlocDeathrattle(Slots(g, p)[i]);
    }
  }

  /** Giantfin's power is a map over the board's live prefix. */
  lemma GiantfinIsMap(c: Tables, g: BattleState, p: Player)
    ensures HeroPowerEffect(c, g, Giantfin, p) == MapSlots(g, p, WithMurlocDeathrattle, false)
  {
    hide DamageAll, DamageRandomMinion, MapSlots, WithSlot, Extends, Grows;
  }

  /** Professor Putricide gives the first slot +10 attack when it holds a minion. */
  lemma PutricideBuffsFirstSlot(c: Tables, g: BattleState, p: Player)
    ensures var r := HeroPowerEffect(c, g, ProfessorPutricide, p);
      var m := Slots(g, p)[0];
      && (Size(g, p) == 0 ==> r == g)
      && (Size(g, p) > 0 ==> Slots(r, p) == Slots(g, p)[0 := m.(attack := m.attack + 10)]
                             && SideOf(r, 1 - p) == SideOf(g, 1 - p))
  {
    hide DamageAll;
    hide DamageRandomMinion;
  }

  // ---------------------------------------------------------------------------
  // done() and score()

  /** `done()` looks at the first slots only; with the live prefix that is "a board is empty". */
  lemma DoneIffEmpty(g: BattleState)
    ensures Done(g) <==> Size(g, 0) == 0 || Size(g, 1) == 0 || g.turn >= 2
  {
  }

  /** Swapping the boards negates the score. */
  lemma ScoreSwapped(c: Tables, g: BattleState)
    ensures Score(c, Swapped(g)) == -Score(c, g)
  {
  }

  /** When player 1's board is empty the score is player 0's stars; when both are empty it is 0. */
  lemma ScoreOfWinner(c: Tables, g: BattleState)
    requires Size(g, 1) == 0
    ensures Score(c, g) == StarsOf(c, Live(Slots(g, 0)))
    ensures Size(g, 0) == 0 ==> Score(c, g) == 0
  {
    assert Live(Slots(g, 1)) == [];
    if Size(g, 0) == 0 {
      assert Live(Slots(g, 0)) == [];
    }
  }

  // ---------------------------------------------------------------------------
  // The windfury test of attack_round

  /** The two windfury tests differ exactly for a windfury attacker tracked at slot 0. */
  lemma WindfuryTestsDiffer(windfury: bool, tracked: int)
    ensures SecondAttacker(windfury, tracked, true) != SecondAttacker(windfury, tracked, false)
        <==> windfury && tracked == 0
  {
  }

  /** Without windfury on the attacker the round as written and the corrected round agree. */
  lemma RoundsAgreeWithoutWindfury(c: Tables, g: BattleState, fuel: nat)
    requires !Done(g) && 0 <= g.turn <= 1
    requires var s := SideOf(g, g.turn); Size(g, g.turn) > 0 && !s.slots[AttackerSlot(s)].windfury
    ensures AttackRound(c, g, fuel) == AttackRoundAsWritten(c, g, fuel)
  {
  }

  // ---------------------------------------------------------------------------
  // The record of dead mechs

  /** A dead mech joins the record after the earlier ones while there is room; anything else
      leaves the record as it is. The record stays a prefix of at most four minions. */
  lemma RecordMechInOrder(c: Tables, g: BattleState, p: Player, dead: Minion)
    requires Exists(dead) && LivePrefix(SideOf(g, p).mechs)
    ensures var before := SideOf(g, p).mechs;
      var after := SideOf(RecordMech(c, g, p, dead), p).mechs;
      && LivePrefix(after) && |after| == MaxMechsThatDied
      && Live(after) == if MinionHasTribe(c, dead, Tribe.Mech) && SizeOf(before) < MaxMechsThatDied
                        then Live(before) + [dead] else Live(before)
  {
    var before := SideOf(g, p).mechs;
    if MinionHasTribe(c, dead, Tribe.Mech) && SizeOf(before) < MaxMechsThatDied {
      AppendedLive(before, dead);
    }
  }

  // ---------------------------------------------------------------------------
  // Damage from hero powers

  /** `damage_random_minion(p, amount)` with no living minion on board `p`: nothing happens and
      nothing is drawn. */
  lemma DamageRandomMinionMisses(c: Tables, g: BattleState, p: Player, amount: int)
    requires forall m :: m in Live(Slots(g, p)) ==> Dead(m)
    ensures DamageRandomMinion(c, g, p, amount) == g
  {
    var live := Live(Slots(g, p));
    LivingTargetFacts(live, g.rng);
    CountZero(live, NotDead);
    hide Damage, LivingTarget, Count, NthIndex, Draw, Step;
    assert forall k :: 0 <= k < |live| ==> live[k] in live;
  }

  /** `damage_random_minion(p, amount)` with a living minion on board `p`: the generator moves on
      once and one living minion takes the damage. */
  lemma DamageRandomMinionHits(c: Tables, g: BattleState, p: Player, amount: int)
    requires exists m :: m in Live(Slots(g, p)) && !Dead(m)
    ensures exists t :: 0 <= t < Size(g, p) && !Dead(Slots(g, p)[t])
              && DamageRandomMinion(c, g, p, amount) == Damage(c, g.(rng := Step(g.rng)), p, t, amount, false)
  {
    var live := Live(Slots(g, p));
    LivingTargetFacts(live, g.rng);
    CountZero(live, NotDead);
    hide Damage, LivingTarget, Count, NthIndex, Draw, Step;
    var m :| m in live && !Dead(m);
    var k :| 0 <= k < |live| && live[k] == m;
    var t := LivingTarget(live, g.rng);
    assert live[t] == Slots(g, p)[t];
    assert LivingDrawn(g, p) == Step(g.rng);
    assert DamageRandomMinion(c, g, p, amount) == Damage(c, g.(rng := Step(g.rng)), p, t, amount, false);
  }

  /** The other player. */
  function Opponent(p: Player): Player { 1 - p }

  /** Ragnaros's and Patches's powers are two hits of `damage_random_minion`, of 8 and of 3. */
  lemma HeroPowerHitsTwice(c: Tables, g: BattleState, hp: HeroPower, p: Player, n: int)
    requires (hp == RagnarosTheFirelord && n == 8) || (hp == PatchesThePirate && n == 3)
    ensures HeroPowerEffect(c, g, hp, p) == DamageRandomMinion(c, DamageRandomMinion(c, g, Opponent(p), n), Opponent(p), n)
  {
    hide DamageRandomMinion, DamageAll, MapSlots, WithSlot, Extends, Grows;
  }

  /** Ragnaros: two hits of 8 on random living enemy minions; against a board with no living
      minion nothing happens. */
  lemma RagnarosHitsTwice(c: Tables, g: BattleState, p: Player)
    ensures HeroPowerEffect(c, g, RagnarosTheFirelord, p)
         == DamageRandomMinion(c, DamageRandomMinion(c, g, Opponent(p), 8), Opponent(p), 8)
    ensures (forall m :: m in Live(Slots(g, Opponent(p))) ==> Dead(m)) ==> HeroPowerEffect(c, g, RagnarosTheFirelord, p) == g
  {
    hide DamageRandomMinion, HeroPowerEffect;
    HeroPowerHitsTwice(c, g, RagnarosTheFirelord, p, 8);
    if forall m :: m in Live(Slots(g, Opponent(p))) ==> Dead(m) {
      DamageRandomMinionMisses(c, g, Opponent(p), 8);
    }
  }

  /** Patches: two hits of 3 on random living enemy minions; against a board with no living
      minion nothing happens. */
  lemma PatchesHitsTwice(c: Tables, g: BattleState, p: Player)
    ensures HeroPowerEffect(c, g, PatchesThePirate, p)
         == DamageRandomMinion(c, DamageRandomMinion(c, g, Opponent(p), 3), Opponent(p), 3)
    ensures (forall m :: m in Live(Slots(g, Opponent(p))) ==> Dead(m)) ==> HeroPowerEffect(c, g, PatchesThePirate, p) == g
  {
    hide DamageRandomMinion, HeroPowerEffect;
    HeroPowerHitsTwice(c, g, PatchesThePirate, p, 3);
    if forall m :: m in Live(Slots(g, Opponent(p))) ==> Dead(m) {
      DamageRandomMinionMisses(c, g, Opponent(p), 3);
    }
  }

  /** One hit of `damage_all` on a minion: a divine shield absorbs it and is lost, otherwise
      the health drops by the amount. */
  function Struck(m: Minion, amount: int): Minion {
    if m.divineShield then m.(divineShield := false) else Hurt(m, amount, false)
  }

  /** The slots after `amount` of damage to every living minion from slot `i` on, leaving aside
      the attack Bolvar Fireblood gains from the shields that break. */
  function HitFrom(s: seq<Minion>, i: nat, amount: int): (r: seq<Minion>)
    ensures |r| == |s|
  {
    seq(|s|, k requires 0 <= k < |s| => if k >= i && Alive(s[k]) then Struck(s[k], amount) else s[k])
  }

  /** `a` is `b` except for attack, which only a Bolvar Fireblood may have gained. */
  predicate AttackGained(a: seq<Minion>, b: seq<Minion>) {
    && |a| == |b|
    && forall k :: 0 <= k < |a| ==>
         && a[k] == b[k].(attack := a[k].attack)
         && a[k].attack >= b[k].attack
         && (a[k].kind != BolvarFireblood ==> a[k].attack == b[k].attack)
  }

  /** A board without Bolvar Fireblood. */
  predicate NoBolvar(s: seq<Minion>) {
    forall k :: 0 <= k < |s| ==> s[k].kind != BolvarFireblood
  }

  /** A board whose minions do not summon when damaged (no Imp Gang Boss, no Security Rover). */
  predicate Quiet(s: seq<Minion>) {
    forall k :: 0 <= k < |s| ==> DamagedSummon(s[k]).None?
  }

  lemma AttackGainedTrans(a: seq<Minion>, b: seq<Minion>, d: seq<Minion>)
    requires AttackGained(a, b) && AttackGained(b, d)
    ensures AttackGained(a, d)
  {
    forall k | 0 <= k < |a|
      ensures a[k] == d[k].(attack := a[k].attack)
    {
      assert a[k] == b[k].(attack := a[k].attack);
      assert b[k] == d[k].(attack := b[k].attack);
    }
  }

  /** Without a Bolvar the attack cannot have been gained. */
  lemma AttackGainedNoBolvar(a: seq<Minion>, b: seq<Minion>)
    requires AttackGained(a, b) && NoBolvar(b)
    ensures a == b
  {
    forall k | 0 <= k < |a|
      ensures a[k] == b[k]
    {
      assert a[k].kind == b[k].kind;
    }
  }

  /** Bolvar's reaction to a broken shield gains attack and nothing else. */
  lemma BreakShieldGains(x: seq<Minion>, k: nat)
    requires k <= |x|
    ensures AttackGained(MapPrefix(x, k, OnBreakFriendlyDivineShield, true), x)
  {
    var y := MapPrefix(x, k, OnBreakFriendlyDivineShield, true);
    forall j | 0 <= j < |y|
      ensures y[j] == x[j].(attack := y[j].attack) && y[j].attack >= x[j].attack
      ensures y[j].kind != BolvarFireblood ==> y[j].attack == x[j].attack
    {
      if j < k && !Dead(x[j]) {
        assert y[j] == OnBreakFriendlyDivineShield(x[j]);
      }
    }
  }

  /** Hitting two boards that differ only in gained attack gives boards that differ so too. */
  lemma HitFromGained(a: seq<Minion>, b: seq<Minion>, i: nat, amount: int)
    requires AttackGained(a, b)
    ensures AttackGained(HitFrom(a, i, amount), HitFrom(b, i, amount))
  {
    var ha, hb := HitFrom(a, i, amount), HitFrom(b, i, amount);
    forall k | 0 <= k < |a|
      ensures ha[k] == hb[k].(attack := ha[k].attack) && ha[k].attack >= hb[k].attack
      ensures ha[k].kind != BolvarFireblood ==> ha[k].attack == hb[k].attack
    {
      StruckGained(a[k], b[k], amount);
    }
  }

  /** Striking ignores attack, so it keeps a gain of attack. */
  lemma StruckGained(x: Minion, y: Minion, amount: int)
    requires x == y.(attack := x.attack)
    ensures Alive(x) == Alive(y)
    ensures Struck(x, amount) == Struck(y, amount).(attack := x.attack)
  {
  }

  /** Striking slot `i`, if its minion is alive, is the first step of `HitFrom`. */
  lemma HitFromStep(s: seq<Minion>, i: nat, amount: int)
    requires i < |s| && Quiet(s)
    ensures var s1 := if Alive(s[i]) then s[i := Struck(s[i], amount)] else s;
      HitFrom(s1, i + 1, amount) == HitFrom(s, i, amount) && Quiet(s1)
  {
  }

  lemma AttackGainedReflexive(a: seq<Minion>)
    ensures AttackGained(a, a)
  {
  }

  /** From the first empty slot of a board on, nothing is hit. */
  lemma HitFromPastEnd(g: BattleState, p: Player, i: nat, amount: int)
    requires i <= BoardSize && (i == BoardSize || !Exists(Slots(g, p)[i]))
    ensures HitFrom(Slots(g, p), i, amount) == Slots(g, p)
  {
    var s := Slots(g, p);
    assert LivePrefix(s);
    HitFromEnd(s, i, amount);
  }

  /** Past the live prefix nothing is hit. */
  lemma HitFromEnd(s: seq<Minion>, i: nat, amount: int)
    requires forall k :: i <= k < |s| ==> !Exists(s[k])
    ensures HitFrom(s, i, amount) == s
  {
  }

  /** A shield that breaks under `damage`: the slot loses its shield, and the living friends
      react (Bolvar Fireblood gains attack). */
  lemma DamageShieldGains(c: Tables, g: BattleState, p: Player, pos: nat, amount: int)
    requires pos < Size(g, p) && amount > 0 && Slots(g, p)[pos].divineShield
    ensures var r := Damage(c, g, p, pos, amount, false);
      var s := Slots(g, p);
      && AttackGained(Slots(r, p), s[pos := s[pos].(divineShield := false)])
      && SideOf(r, Opponent(p)) == SideOf(g, Opponent(p)) && r.rng == g.rng
  {
    var m := Slots(g, p)[pos];
    var g1 := WithSlot(g, p, pos, m.(divineShield := false));
    assert Damage(c, g, p, pos, amount, false) == BreakShield(g1, p);
    BreakShieldGains(Slots(g1, p), Size(g1, p));
  }

  /** One round of `damage_all` on a board that does not summon when damaged: the slot's minion
      is struck if alive. */
  lemma DamageIfAliveStruck(c: Tables, g: BattleState, p: Player, amount: int, i: nat)
    requires amount > 0 && i < BoardSize && Exists(Slots(g, p)[i]) && Quiet(Slots(g, p))
    ensures var r := DamageIfAlive(c, g, p, amount, i);
      var s := Slots(g, p);
      && AttackGained(Slots(r, p), if Alive(s[i]) then s[i := Struck(s[i], amount)] else s)
      && SideOf(r, Opponent(p)) == SideOf(g, Opponent(p)) && r.rng == g.rng
  {
    var s := Slots(g, p);
    assert |s| == BoardSize;
    SizeCoversExisting(g, p, i);
    assert DamagedSummon(s[i]).None?;
    hide Damage, Hurt, Extends, Grows, MapSlots, WithSlot, AttackGained, Quiet;
    if Alive(s[i]) {
      assert DamageIfAlive(c, g, p, amount, i) == Damage(c, g, p, i, amount, false);
      if s[i].divineShield {
        DamageShieldGains(c, g, p, i, amount);
      } else {
        DamageHurts(c, g, p, i, amount, false);
        AttackGainedReflexive(s[i := Struck(s[i], amount)]);
      }
    } else {
      AttackGainedReflexive(s);
    }
  }

  /** One round of `damage_all` keeps the board quiet and the other side and generator alone. */
  lemma DamageIfAliveQuiet(c: Tables, g: BattleState, p: Player, amount: int, i: nat)
    requires amount > 0 && i < BoardSize && Exists(Slots(g, p)[i]) && Quiet(Slots(g, p))
    ensures var g1 := DamageIfAlive(c, g, p, amount, i);
      && Quiet(Slots(g1, p))
      && SideOf(g1, Opponent(p)) == SideOf(g, Opponent(p)) && g1.rng == g.rng
  {
    var s := Slots(g, p);
    assert |s| == BoardSize;
    hide DamageIfAlive, Damage, Struck, Alive, Hurt, Slots, SideOf, Opponent, Quiet, AttackGained, Extends, Grows;
    HitFromStep(s, i, amount);
    DamageIfAliveStruck(c, g, p, amount, i);
    QuietGained(Slots(DamageIfAlive(c, g, p, amount, i), p), if Alive(s[i]) then s[i := Struck(s[i], amount)] else s);
  }

  /** The sequence half of `DamageIfAliveChain`. */
  lemma HitFromChain(x: seq<Minion>, h1: seq<Minion>, s1: seq<Minion>, s: seq<Minion>, i: nat, amount: int)
    requires AttackGained(h1, s1) && AttackGained(x, HitFrom(h1, i + 1, amount))
    requires HitFrom(s1, i + 1, amount) == HitFrom(s, i, amount)
    ensures AttackGained(x, HitFrom(s, i, amount))
  {
    hide AttackGained, HitFrom;
    HitFromGained(h1, s1, i + 1, amount);
    AttackGainedTrans(x, HitFrom(h1, i + 1, amount), HitFrom(s1, i + 1, amount));
  }

  /** A board that is the rest of `damage_all` after one round, up to attack gained, is the
      whole of it from that round on. */
  lemma DamageIfAliveChain(c: Tables, g: BattleState, p: Player, amount: int, i: nat, x: seq<Minion>)
    requires amount > 0 && i < BoardSize && Exists(Slots(g, p)[i]) && Quiet(Slots(g, p))
    requires AttackGained(x, HitFrom(Slots(DamageIfAlive(c, g, p, amount, i), p), i + 1, amount))
    ensures AttackGained(x, HitFrom(Slots(g, p), i, amount))
  {
    var s := Slots(g, p);
    assert |s| == BoardSize;
    hide DamageIfAlive, Damage, Struck, Alive, Hurt, Slots, SideOf, Opponent, Quiet, AttackGained, HitFrom, Extends, Grows;
    var g1 := DamageIfAlive(c, g, p, amount, i);
    var s1 := if Alive(s[i]) then s[i := Struck(s[i], amount)] else s;
    DamageIfAliveStruck(c, g, p, amount, i);
    HitFromStep(s, i, amount);
    HitFromChain(x, Slots(g1, p), s1, s, i, amount);
  }

  /** What `damage_all` from slot `i` on does to a quiet board: the struck board up to attack
      gained, with the other side and the generator left alone. */
  predicate StruckFrom(c: Tables, g: BattleState, p: Player, amount: int, i: nat) {
    var r := DamageAll(c, g, p, amount, i);
    && AttackGained(Slots(r, p), HitFrom(Slots(g, p), i, amount))
    && SideOf(r, Opponent(p)) == SideOf(g, Opponent(p)) && r.rng == g.rng
  }

  /** The inductive step of `DamageAllGains`: what holds from slot `i + 1` on after one round
      holds from slot `i` on. */
  lemma DamageAllGainsStep(c: Tables, g: BattleState, p: Player, amount: int, i: nat)
    requires amount > 0 && i < BoardSize && Exists(Slots(g, p)[i]) && Quiet(Slots(g, p))
    requires StruckFrom(c, DamageIfAlive(c, g, p, amount, i), p, amount, i + 1)
    ensures StruckFrom(c, g, p, amount, i)
  {
    hide DamageAll, DamageIfAlive, HitFrom, Quiet, Damage, Alive, Hurt, Struck, Slots, SideOf, Opponent, AttackGained, Extends, Grows;
    var g1 := DamageIfAlive(c, g, p, amount, i);
    assert DamageAll(c, g, p, amount, i) == DamageAll(c, g1, p, amount, i + 1) by {
      DamageAllStep(c, g, p, amount, i);
    }
    DamageIfAliveQuiet(c, g, p, amount, i);
    DamageIfAliveChain(c, g, p, amount, i, Slots(DamageAll(c, g1, p, amount, i + 1), p));
  }

  /** The end of `damage_all`'s loop: from the first empty slot on, nothing changes. */
  lemma DamageAllGainsEnd(c: Tables, g: BattleState, p: Player, amount: int, i: nat)
    requires i <= BoardSize && (i == BoardSize || !Exists(Slots(g, p)[i]))
    ensures StruckFrom(c, g, p, amount, i)
  {
    hide DamageAll, DamageIfAlive, HitFrom, Quiet, Damage, Alive, Hurt, Struck, Slots, SideOf, Opponent, AttackGained, Extends, Grows;
    DamageAllStep(c, g, p, amount, i);
    HitFromPastEnd(g, p, i, amount);
    AttackGainedReflexive(Slots(g, p));
  }

  /** The induction behind `DamageAllQuiet`: from slot `i` on, `damage_all` gives the struck
      board up to attack gained, and leaves the other side and the generator alone. */
  lemma {:induction false} DamageAllGains(c: Tables, g: BattleState, p: Player, amount: int, i: nat)
    requires amount > 0 && i <= BoardSize && Quiet(Slots(g, p))
    ensures StruckFrom(c, g, p, amount, i)
    decreases BoardSize - i
  {
    hide DamageAll, DamageIfAlive, HitFrom, Quiet, Damage, Alive, Hurt, Struck, SideOf, Opponent, AttackGained, Extends, Grows, StruckFrom;
    if i < BoardSize && Exists(Slots(g, p)[i]) {
      DamageIfAliveQuiet(c, g, p, amount, i);
      DamageAllGains(c, DamageIfAlive(c, g, p, amount, i), p, amount, i + 1);
      DamageAllGainsStep(c, g, p, amount, i);
    } else {
      DamageAllGainsEnd(c, g, p, amount, i);
    }
  }

  /** On a board whose minions do not summon when damaged, `damage_all` from slot `i` on strikes
      every living minion there once: a shield is lost, or else the health drops. Apart from
      the attack a Bolvar Fireblood gains, nothing else changes, and without a Bolvar the board
      is exactly the struck one. */
  lemma DamageAllQuiet(c: Tables, g: BattleState, p: Player, amount: int, i: nat)
    requires amount > 0 && i <= BoardSize && Quiet(Slots(g, p))
    ensures var r := DamageAll(c, g, p, amount, i);
      && AttackGained(Slots(r, p), HitFrom(Slots(g, p), i, amount))
      && (NoBolvar(Slots(g, p)) ==> Slots(r, p) == HitFrom(Slots(g, p), i, amount))
      && SideOf(r, Opponent(p)) == SideOf(g, Opponent(p)) && r.rng == g.rng
  {
    DamageAllGains(c, g, p, amount, i);
    hide DamageAll, HitFrom, Quiet, Slots, SideOf, Opponent, AttackGained;
    if NoBolvar(Slots(g, p)) {
      NoBolvarHit(Slots(g, p), i, amount);
      AttackGainedNoBolvar(Slots(DamageAll(c, g, p, amount, i), p), HitFrom(Slots(g, p), i, amount));
    }
  }

  /** Gained attack keeps the kinds, so a quiet board stays quiet. */
  lemma QuietGained(a: seq<Minion>, b: seq<Minion>)
    requires AttackGained(a, b) && Quiet(b)
    ensures Quiet(a)
  {
    forall k | 0 <= k < |a|
      ensures DamagedSummon(a[k]).None?
    {
      assert a[k].kind == b[k].kind;
    }
  }

  /** Striking keeps the kinds, so no Bolvar appears. */
  lemma NoBolvarHit(s: seq<Minion>, i: nat, amount: int)
    requires NoBolvar(s)
    ensures NoBolvar(HitFrom(s, i, amount))
  {
  }

  /** Nefarian's power is `damage_all` of 1 on the enemy board. */
  lemma NefarianDamagesAll(c: Tables, g: BattleState, p: Player)
    ensures HeroPowerEffect(c, g, HeroPower.Nefarian, p) == DamageAll(c, g, Opponent(p), 1, 0)
  {
    hide DamageAll, DamageRandomMinion, MapSlots, WithSlot;
  }

  /** Nefarian: against a board whose minions do not summon when damaged, every living enemy
      minion takes 1 damage or loses its divine shield; only a Bolvar Fireblood may gain attack
      besides. The player's own board and the generator are left alone. */
  lemma NefarianHitsEveryEnemy(c: Tables, g: BattleState, p: Player)
    requires Quiet(Slots(g, Opponent(p)))
    ensures var r := HeroPowerEffect(c, g, HeroPower.Nefarian, p);
      && AttackGained(Slots(r, Opponent(p)), HitFrom(Slots(g, Opponent(p)), 0, 1))
      && (NoBolvar(Slots(g, Opponent(p))) ==> Slots(r, Opponent(p)) == HitFrom(Slots(g, Opponent(p)), 0, 1))
      && SideOf(r, p) == SideOf(g, p) && r.rng == g.rng
  {
    NefarianDamagesAll(c, g, p);
    hide HeroPowerEffect, DamageAll, DamageRandomMinion, MapSlots, WithSlot, HitFrom, Quiet, AttackGained, NoBolvar;
    DamageAllQuiet(c, g, Opponent(p), 1, 0);
  }
}
