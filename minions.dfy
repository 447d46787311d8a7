// src/minion.hpp: a minion on the board. The C++ struct is copied by value on every
// assignment, so it is a value here and each mutating member is a function returning the
// updated minion.
module Minions {
  import opened Util
  import opened Tribes
  import opened MinionInfo

  /** Saturation bound of the three-bit deathrattle counters. */
  const MaxCounter := 7

  datatype Minion = Minion(
    kind: MinionType,
    golden: bool,
    attack: int,
    health: int,
    taunt: bool,
    divineShield: bool,
    poison: bool,
    windfury: bool,
    reborn: bool,
    deathrattleMurlocs: nat,
    deathrattleMicrobots: nat,
    deathrattleGoldenMicrobots: nat,
    deathrattlePlants: nat,
    attackBuff: int,
    healthBuff: int)

  /** `Minion()`: the empty slot, type None with stats -1/-1. */
  function Empty(): Minion {
    Minion(MinionType.None, false, -1, -1, false, false, false, false, false, 0, 0, 0, 0, 0, 0)
  }

  /** `Minion(type, golden)`: a fresh minion with the table's stats and keywords. */
  function Make(c: Catalog, t: MinionType, golden: bool): Minion {
    var i := c.info(t);
    Minion(t, golden, AttackFor(i, golden), HealthFor(i, golden),
           i.taunt, i.divineShield, i.poison, i.windfury, false, 0, 0, 0, 0, 0, 0)
  }

  function NewCopy(c: Catalog, m: Minion): Minion { Make(c, m.kind, m.golden) }

  function RebornCopy(c: Catalog, m: Minion): Minion { NewCopy(c, m).(health := 1) }

  predicate Exists(m: Minion) { m.kind != MinionType.None }
  predicate Dead(m: Minion) { m.health <= 0 }
  predicate Alive(m: Minion) { Exists(m) && !Dead(m) }

  function Stars(c: Catalog, m: Minion): int { c.info(m.kind).stars }
  function TribeOfMinion(c: Catalog, m: Minion): Tribe { c.info(m.kind).tribe }
  predicate Cleave(c: Catalog, m: Minion) { c.info(m.kind).cleave }
  predicate MinionHasTribe(c: Catalog, m: Minion, query: Tribe) {
    HasTribe(TribeOfMinion(c, m), query)
  }

  /** The predicates the board's counting loops and target pickers test, as function values. */
  predicate Taunted(m: Minion) { m.taunt }
  predicate NotDead(m: Minion) { !Dead(m) }
  function IsOfTribe(c: Catalog, query: Tribe): Minion -> bool { (m: Minion) => MinionHasTribe(c, m, query) }
  function HasAttack(attack: int): Minion -> bool { (m: Minion) => m.attack == attack }

  /** `clear()` only resets the type; the stale stats stay in the slot. */
  function Clear(m: Minion): Minion { m.(kind := MinionType.None) }

  function Buff(m: Minion, attack: int, health: int): Minion {
    m.(attack := m.attack + attack, health := m.health + health)
  }

  function AuraBuff(m: Minion, attack: int, health: int): Minion {
    m.(attack := m.attack + attack, health := m.health + health,
       attackBuff := m.attackBuff + attack, healthBuff := m.healthBuff + health)
  }

  function ClearAuraBuff(m: Minion): Minion {
    m.(attack := m.attack - m.attackBuff, health := m.health - m.healthBuff,
       attackBuff := 0, healthBuff := 0)
  }

  function SetStats(m: Minion, attack: int, health: int, attackBuff: int, healthBuff: int): Minion {
    m.(attack := attack, health := health, attackBuff := attackBuff, healthBuff := healthBuff)
  }

  /** The buffs `buff_all`, `buff_all_if` and the divine-shield grant apply, as function values. */
  function BuffBy(attack: int, health: int): (f: Minion -> Minion)
    ensures forall m :: f(m).kind == m.kind
  {
    m => Buff(m, attack, health)
  }

  /** The buff of the friendly minions of one tribe. */
  function BuffTribe(c: Catalog, tribe: Tribe, attack: int, health: int): (f: Minion -> Minion)
    ensures forall m :: f(m).kind == m.kind
  {
    m => if MinionHasTribe(c, m, tribe) then Buff(m, attack, health) else m
  }

  function Shielded(m: Minion): Minion { m.(divineShield := true) }

  function AddDeathrattleMicrobots(m: Minion, n: int): Minion
    requires n >= 0
  {
    m.(deathrattleMicrobots := Min(m.deathrattleMicrobots + n, MaxCounter))
  }

  function AddDeathrattleGoldenMicrobots(m: Minion, n: int): Minion
    requires n >= 0
  {
    m.(deathrattleGoldenMicrobots := Min(m.deathrattleGoldenMicrobots + n, MaxCounter))
  }

  function AddDeathrattlePlants(m: Minion, n: int): Minion
    requires n >= 0
  {
    m.(deathrattlePlants := Min(m.deathrattlePlants + n, MaxCounter))
  }

  // ---------------------------------------------------------------------------
  // Properties

  /** The empty slot does not exist, and a cleared slot never exists. */
  lemma EmptySlots(m: Minion)
    ensures !Exists(Empty()) && Dead(Empty())
    ensures !Exists(Clear(m)) && !Alive(Clear(m))
  {
  }

  /** A fresh minion exists exactly when its type is not None, carries no aura and no extra
      deathrattles, takes its keywords from the table, and a golden one has double the stats
      of a normal one. */
  lemma MakeFacts(c: Catalog, t: MinionType, golden: bool)
    ensures Exists(Make(c, t, false)) <==> t != MinionType.None
    ensures var m := Make(c, t, golden); var i := c.info(t);
      m.kind == t && m.golden == golden && m.taunt == i.taunt && m.divineShield == i.divineShield
      && m.poison == i.poison && m.windfury == i.windfury
    ensures Make(c, t, true).attack == 2 * Make(c, t, false).attack
    ensures Make(c, t, true).health == 2 * Make(c, t, false).health
    ensures Make(c, t, false).attack == c.info(t).attack && Make(c, t, false).health == c.info(t).health
    ensures var m := Make(c, t, golden);
      m.attackBuff == 0 && m.healthBuff == 0 && !m.reborn
      && m.deathrattleMurlocs == 0 && m.deathrattleMicrobots == 0
      && m.deathrattleGoldenMicrobots == 0 && m.deathrattlePlants == 0
  {
  }

  /** A reborn copy is a new copy with one health: same type, goldenness and keywords. */
  lemma RebornCopyFacts(c: Catalog, m: Minion)
    ensures RebornCopy(c, m).health == 1 && !Dead(RebornCopy(c, m))
    ensures RebornCopy(c, m).(health := NewCopy(c, m).health) == NewCopy(c, m)
    ensures RebornCopy(c, m).kind == m.kind && RebornCopy(c, m).golden == m.golden
  {
  }

  /** A permanent buff changes the two stats by the amounts given and leaves the aura
      counters alone; `set_stats` overwrites all four. */
  lemma BuffKeepsAuraCounters(m: Minion, attack: int, health: int)
    ensures Buff(m, attack, health).attack - m.attack == attack
    ensures Buff(m, attack, health).health - m.health == health
    ensures Buff(m, attack, health).attackBuff == m.attackBuff
    ensures Buff(m, attack, health).healthBuff == m.healthBuff
    ensures Buff(m, attack, health).(attack := m.attack, health := m.health) == m
  {
  }

  /** Clearing auras undoes every aura buff applied since the last clear. */
  lemma ClearUndoesAuraBuff(m: Minion, attack: int, health: int)
    ensures ClearAuraBuff(AuraBuff(m, attack, health)) == ClearAuraBuff(m)
  {
  }

  /** From an aura-free minion, apply-then-clear is the identity; a permanent buff is not undone. */
  lemma AuraRoundTrip(m: Minion, attack: int, health: int)
    requires m.attackBuff == 0 && m.healthBuff == 0
    ensures ClearAuraBuff(AuraBuff(m, attack, health)) == m
    ensures ClearAuraBuff(Buff(m, attack, health)) == Buff(m, attack, health)
  {
  }

  /** The three deathrattle counters grow by the requested amount but never beyond seven, and
      each addition touches its own counter only. */
  lemma CountersSaturate(m: Minion, n: nat)
    requires m.deathrattleMicrobots <= MaxCounter && m.deathrattlePlants <= MaxCounter
    requires m.deathrattleGoldenMicrobots <= MaxCounter
    ensures AddDeathrattleMicrobots(m, n).deathrattleMicrobots <= MaxCounter
    ensures AddDeathrattleMicrobots(m, n).deathrattleMicrobots >= m.deathrattleMicrobots
    ensures m.deathrattleMicrobots + n <= MaxCounter ==>
              AddDeathrattleMicrobots(m, n).deathrattleMicrobots == m.deathrattleMicrobots + n
    ensures m.deathrattleMicrobots + n >= MaxCounter ==>
              AddDeathrattleMicrobots(m, n).deathrattleMicrobots == MaxCounter
    ensures AddDeathrattleMicrobots(m, n).(deathrattleMicrobots := m.deathrattleMicrobots) == m
    ensures AddDeathrattleGoldenMicrobots(m, n).deathrattleGoldenMicrobots <= MaxCounter
    ensures AddDeathrattleGoldenMicrobots(m, n).deathrattleGoldenMicrobots >= m.deathrattleGoldenMicrobots
    ensures m.deathrattleGoldenMicrobots + n <= MaxCounter ==>
              AddDeathrattleGoldenMicrobots(m, n).deathrattleGoldenMicrobots == m.deathrattleGoldenMicrobots + n
    ensures m.deathrattleGoldenMicrobots + n >= MaxCounter ==>
              AddDeathrattleGoldenMicrobots(m, n).deathrattleGoldenMicrobots == MaxCounter
    ensures AddDeathrattleGoldenMicrobots(m, n).(deathrattleGoldenMicrobots := m.deathrattleGoldenMicrobots) == m
    ensures AddDeathrattlePlants(m, n).deathrattlePlants <= MaxCounter
    ensures AddDeathrattlePlants(m, n).deathrattlePlants >= m.deathrattlePlants
    ensures m.deathrattlePlants + n <= MaxCounter ==>
              AddDeathrattlePlants(m, n).deathrattlePlants == m.deathrattlePlants + n
    ensures m.deathrattlePlants + n >= MaxCounter ==>
              AddDeathrattlePlants(m, n).deathrattlePlants == MaxCounter
    ensures AddDeathrattlePlants(m, n).(deathrattlePlants := m.deathrattlePlants) == m
  {
  }
}
