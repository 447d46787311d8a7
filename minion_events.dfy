// src/minion_events.cpp: what a minion does when an event of the battle reaches it. Each
// handler is a switch on the minion's type; here each one answers with the effect it has, and
// the battle (battle_rules.dfy) carries the effect out on its boards. The aura handler,
// `recompute_aura_from`, works on one board only and is part of boards.dfy.
module MinionEvents {
  import opened Util
  import opened Tribes
  import opened MinionInfo
  import opened Minions

  // ---------------------------------------------------------------------------
  // on_friendly_summon

  /** The effect of `on_friendly_summon` for one friendly minion: it buffs or shields itself,
      or it buffs the minion that was summoned. */
  datatype SummonEffect =
    | NoEffect
    | BuffSelf(attack: int, health: int)
    | ShieldSelf
    | BuffSummoned(attack: int, health: int)

  /** `m.on_friendly_summon(board, summoned, played)`. Crowd Favorite's played branch reads a
      battlecry flag the table does not have; it is left out (the battle never plays). */
  function OnFriendlySummon(c: Catalog, m: Minion, summoned: Minion, played: bool): SummonEffect {
    var g := m.golden;
    match m.kind
    case MurlocTidecaller =>
      if MinionHasTribe(c, summoned, Tribe.Murloc) then BuffSelf(DoubleIfGolden(1, g), 0) else NoEffect
    case WrathWeaver =>
      if played && MinionHasTribe(c, summoned, Tribe.Demon)
      then BuffSelf(DoubleIfGolden(2, g), DoubleIfGolden(2, g)) else NoEffect
    case CobaltGuardian =>
      if MinionHasTribe(c, summoned, Tribe.Mech) then ShieldSelf else NoEffect
    case PackLeader =>
      if MinionHasTribe(c, summoned, Tribe.Beast) then BuffSummoned(DoubleIfGolden(3, g), 0) else NoEffect
    case MamaBear =>
      if MinionHasTribe(c, summoned, Tribe.Beast)
      then BuffSummoned(DoubleIfGolden(4, g), DoubleIfGolden(4, g)) else NoEffect
    case PreNerfMamaBear =>
      if MinionHasTribe(c, summoned, Tribe.Beast)
      then BuffSummoned(DoubleIfGolden(5, g), DoubleIfGolden(5, g)) else NoEffect
    case _ => NoEffect
  }

  /** The friendly minion after its own part of the effect. */
  function ApplyToSelf(e: SummonEffect, m: Minion): Minion {
    match e
    case BuffSelf(a, h) => Buff(m, a, h)
    case ShieldSelf => m.(divineShield := true)
    case _ => m
  }

  /** The summoned minion after its part of the effect. */
  function ApplyToSummoned(e: SummonEffect, s: Minion): Minion {
    match e
    case BuffSummoned(a, h) => Buff(s, a, h)
    case _ => s
  }

  /** Which friends react to a summon, and with what: Tidecallers to murlocs, Guardians to
      mechs, Pack Leaders and Mama Bears to beasts, and a Wrath Weaver never when the minion is
      only summoned; every effect keeps the type of both minions. */
  lemma SummonReactions(c: Catalog, m: Minion, summoned: Minion)
    ensures var e := OnFriendlySummon(c, m, summoned, false);
      && (e.BuffSelf? ==> m.kind == MurlocTidecaller && MinionHasTribe(c, summoned, Tribe.Murloc)
                          && e == BuffSelf(DoubleIfGolden(1, m.golden), 0))
      && (e.ShieldSelf? ==> m.kind == CobaltGuardian && MinionHasTribe(c, summoned, Tribe.Mech))
      && (e.BuffSummoned? ==> MinionHasTribe(c, summoned, Tribe.Beast)
                              && m.kind in {PackLeader, MamaBear, PreNerfMamaBear})
      && (m.kind == WrathWeaver ==> e == NoEffect)
      && ApplyToSelf(e, m).kind == m.kind && ApplyToSummoned(e, summoned).kind == summoned.kind
  {
  }

  /** Whatever the effect, neither minion changes type. */
  lemma EffectKeepsKinds(e: SummonEffect, m: Minion, summoned: Minion)
    ensures ApplyToSelf(e, m).kind == m.kind && ApplyToSummoned(e, summoned).kind == summoned.kind
  {
  }

  /** The beast buffers give the summoned beast +3/+0, +4/+4 or +5/+5, doubled when golden. */
  lemma BeastBuffAmounts(c: Catalog, m: Minion, summoned: Minion)
    requires MinionHasTribe(c, summoned, Tribe.Beast)
    ensures m.kind == PackLeader ==>
      OnFriendlySummon(c, m, summoned, false) == BuffSummoned(DoubleIfGolden(3, m.golden), 0)
    ensures m.kind == MamaBear ==>
      ApplyToSummoned(OnFriendlySummon(c, m, summoned, false), summoned)
        == Buff(summoned, DoubleIfGolden(4, m.golden), DoubleIfGolden(4, m.golden))
    ensures m.kind == PreNerfMamaBear ==>
      ApplyToSummoned(OnFriendlySummon(c, m, summoned, false), summoned)
        == Buff(summoned, DoubleIfGolden(5, m.golden), DoubleIfGolden(5, m.golden))
  {
  }

  // ---------------------------------------------------------------------------
  // on_friendly_death, on_damaged, on_attack_and_kill, on_after_friendly_attack,
  // on_break_friendly_divine_shield

  datatype DeathEffect = NoReaction | Grow(attack: int, health: int) | DamageRandomEnemy(amount: int)

  /** `m.on_friendly_death(battle, dead_minion, player)`. */
  function OnFriendlyDeath(c: Catalog, m: Minion, dead: Minion): DeathEffect {
    var g := m.golden;
    match m.kind
    case ScavengingHyena =>
      if MinionHasTribe(c, dead, Tribe.Beast) then Grow(DoubleIfGolden(2, g), DoubleIfGolden(1, g)) else NoReaction
    case SoulJuggler =>
      if MinionHasTribe(c, dead, Tribe.Demon) then DamageRandomEnemy(DoubleIfGolden(3, g)) else NoReaction
    case Junkbot =>
      if MinionHasTribe(c, dead, Tribe.Mech) then Grow(DoubleIfGolden(2, g), DoubleIfGolden(2, g)) else NoReaction
    case _ => NoReaction
  }

  /** Hyenas grow on beasts, Junkbots on mechs, Soul Jugglers throw 3 (6) at a demon's death. */
  lemma DeathReactions(c: Catalog, m: Minion, dead: Minion)
    ensures var e := OnFriendlyDeath(c, m, dead);
      && (e.Grow? ==>
            || (m.kind == ScavengingHyena && MinionHasTribe(c, dead, Tribe.Beast)
                && e == Grow(DoubleIfGolden(2, m.golden), DoubleIfGolden(1, m.golden)))
            || (m.kind == Junkbot && MinionHasTribe(c, dead, Tribe.Mech)
                && e == Grow(DoubleIfGolden(2, m.golden), DoubleIfGolden(2, m.golden))))
      && (e.DamageRandomEnemy? <==> m.kind == SoulJuggler && MinionHasTribe(c, dead, Tribe.Demon))
      && (e.DamageRandomEnemy? ==> e.amount == DoubleIfGolden(3, m.golden))
  {
  }

  /** `on_damaged`: Imp Gang Boss and Security Rover summon their token (golden if they are)
      to their right. */
  function DamagedSummon(m: Minion): Option<MinionType> {
    match m.kind
    case ImpGangBoss => Some(Imp)
    case SecurityRover => Some(GuardBot)
    case _ => Option.None
  }

  datatype KillEffect = NoKillEffect | SummonRunt | GrowOnKill(attack: int, health: int)

  /** `on_attack_and_kill`: Ironhide Direhorn summons a runt on overkill only; the Boogeymonster
      grows on every kill. */
  function OnAttackAndKill(m: Minion, overkill: bool): (e: KillEffect)
    ensures e.SummonRunt? <==> m.kind == IronhideDirehorn && overkill
    ensures e.GrowOnKill? <==> m.kind == TheBoogeymonster
    ensures e.GrowOnKill? ==> e == GrowOnKill(DoubleIfGolden(2, m.golden), DoubleIfGolden(2, m.golden))
  {
    match m.kind
    case IronhideDirehorn => if overkill then SummonRunt else NoKillEffect
    case TheBoogeymonster => GrowOnKill(DoubleIfGolden(2, m.golden), DoubleIfGolden(2, m.golden))
    case _ => NoKillEffect
  }

  /** `on_after_friendly_attack`: Festeroot Hulk gains +1 (+2) attack. */
  function OnAfterFriendlyAttack(m: Minion): (r: Minion)
    ensures r.attack == m.attack + (if m.kind == FesterootHulk then (if m.golden then 2 else 1) else 0)
    ensures r == m.(attack := r.attack)
  {
    match m.kind
    case FesterootHulk => Buff(m, DoubleIfGolden(1, m.golden), 0)
    case _ => m
  }

  /** `on_break_friendly_divine_shield`: Bolvar Fireblood gains +2 (+4) attack. */
  function OnBreakFriendlyDivineShield(m: Minion): (r: Minion)
    ensures r.attack == m.attack + (if m.kind == BolvarFireblood then (if m.golden then 4 else 2) else 0)
    ensures r == m.(attack := r.attack)
  {
    match m.kind
    case BolvarFireblood => Buff(m, DoubleIfGolden(2, m.golden), 0)
    case _ => m
  }

  // ---------------------------------------------------------------------------
  // do_deathrattle

  /** The five random pools of minion_info.cpp. */
  datatype Pool = OneCost | TwoCost | FourCost | DeathrattlePool | Legendary

  function PoolList(c: Catalog, pool: Pool): seq<MinionType> {
    match pool
    case OneCost => c.oneCostMinions
    case TwoCost => c.twoCostMinions
    case FourCost => c.fourCostMinions
    case DeathrattlePool => c.deathrattleMinions
    case Legendary => c.legendaryMinions
  }

  /** What a type's own deathrattle does; `times` counts the repetitions of the golden loops. */
  datatype Deathrattle =
    | NoDeathrattle
    | SummonTokens(kind: MinionType, count: int)
    | ShieldRandomFriend(times: nat)
    | DamageRandomEnemies(amount: int, times: nat)
    | SummonRandom(pool: Pool, times: nat)
    | BuffFriends(attack: int, health: int)
    | BuffFriendsOfTribe(attack: int, health: int, tribe: Tribe)
    | BuffRandomFriend(attack: int, health: int)
    | OpponentToken(kind: MinionType)
    | SummonDeadMechs(limit: nat)

  /** The switch of `Minion::do_deathrattle`. Token summons inherit the dead minion's golden
      flag (the battle builds them with it); Rat Pack summons as many rats as its attack. */
  function BaseDeathrattle(m: Minion): (d: Deathrattle)
    ensures (d.SummonTokens? || d.OpponentToken?) ==> d.kind != MinionType.None
    ensures d.SummonTokens? && m.kind != RatPack ==> 1 <= d.count <= 3
  {
    var g := m.golden;
    var twice: nat := if g then 2 else 1;
    match m.kind
    case Mecharoo => SummonTokens(JoEBot, 1)
    case SelflessHero => ShieldRandomFriend(twice)
    case HarvestGolem => SummonTokens(DamagedGolem, 1)
    case KaboomBot => DamageRandomEnemies(4, twice)
    case KindlyGrandmother => SummonTokens(BigBadWolf, 1)
    case MountedRaptor => SummonRandom(OneCost, twice)
    case RatPack => SummonTokens(Rat, m.attack)
    case SpawnOfNZoth => BuffFriends(DoubleIfGolden(1, g), DoubleIfGolden(1, g))
    case InfestedWolf => SummonTokens(Spider, 2)
    case PilotedShredder => SummonRandom(TwoCost, twice)
    case ReplicatingMenace => SummonTokens(Microbot, 3)
    case TortollanShellraiser => BuffRandomFriend(DoubleIfGolden(1, g), DoubleIfGolden(1, g))
    case PilotedSkyGolem => SummonRandom(FourCost, twice)
    case TheBeast => OpponentToken(FinkleEinhorn)
    case GoldrinnTheGreatWolf => BuffFriendsOfTribe(DoubleIfGolden(4, g), DoubleIfGolden(4, g), Tribe.Beast)
    case KingBagurgle => BuffFriendsOfTribe(DoubleIfGolden(2, g), DoubleIfGolden(2, g), Tribe.Murloc)
    case MechanoEgg => SummonTokens(Robosaur, 1)
    case SatedThreshadon => SummonTokens(MurlocScout, 3)
    case SavannahHighmane => SummonTokens(Hyena, 2)
    case Ghastcoiler => SummonRandom(DeathrattlePool, if g then 4 else 2)
    case KangorsApprentice => SummonDeadMechs(if g then 4 else 2)
    case SneedsOldShredder => SummonRandom(Legendary, twice)
    case _ => NoDeathrattle
  }

  /** An independent statement of what gold does to a deathrattle: repetitions, buffs and the
      dead-mech limit double, token summons keep their count (the tokens become golden),
      Kaboom Bot's bomb stays at 4 and the Beast's gift stays a plain Finkle. */
  function Golden(d: Deathrattle): Deathrattle {
    match d
    case ShieldRandomFriend(t) => ShieldRandomFriend(2 * t)
    case DamageRandomEnemies(a, t) => DamageRandomEnemies(a, 2 * t)
    case SummonRandom(p, t) => SummonRandom(p, 2 * t)
    case BuffFriends(a, h) => BuffFriends(2 * a, 2 * h)
    case BuffFriendsOfTribe(a, h, tr) => BuffFriendsOfTribe(2 * a, 2 * h, tr)
    case BuffRandomFriend(a, h) => BuffRandomFriend(2 * a, 2 * h)
    case SummonDeadMechs(l) => SummonDeadMechs(2 * l)
    case _ => d
  }

  /** Every deathrattle of the table scales with gold as `Golden` says. */
  lemma GoldenDeathrattles(m: Minion)
    ensures BaseDeathrattle(m.(golden := true)) == Golden(BaseDeathrattle(m.(golden := false)))
  {
  }
}
