// src/log_parser.cpp, "Hearthstone state" and "Conversion to board state": the entities a game
// log describes and the two boards built from them when a battle starts. The game owns its
// entities through a map from entity id, and a pointer the C++ keeps to an entity is that id
// here. An id that is created twice names the newer entity, where the C++ pointers to the older
// one would dangle.
module HsGame {
  import opened Util
  import opened MinionInfo
  import opened Minions
  import opened Boards
  import opened BoardParser

  datatype EntityType =
    | UnknownEntity | GameEntity | PlayerEntity | MinionEntity | HeroPowerEntity | HeroEntity
    | EnchantmentEntity | HoverTargetEntity

  datatype Zone = UnknownZone | Play | Hand | Graveyard | SetAside | RemovedFromGame

  /** One entity of the log: its card id, the tags the parser tracks, and the ids of the
      enchantment entities attached to it. */
  datatype Entity = Entity(
    hsId: string,
    cardType: EntityType,
    zone: Zone,
    attack: int,
    health: int,
    techLevel: int,
    premium: int,
    zonePosition: int,
    controller: int,
    entityId: int,
    taunt: int,
    divineShield: int,
    poisonous: int,
    windfury: int,
    playerId: int,
    isDummyPlayer: int,
    damage: int,
    used: int,
    attached: int,
    enchantments: seq<int>)

  /** `Entity(id)`: no card id, unknown type and zone, every tag 0. */
  function NewEntity(id: int): Entity {
    Entity("", UnknownEntity, UnknownZone, 0, 0, 0, 0, 0, 0, id, 0, 0, 0, 0, 0, 0, 0, 0, 0, [])
  }

  /** The game state the log parser keeps. */
  class HSGame {
    var inBattlegrounds: bool
    var entities: map<int, Entity>
    var gameEntity: Option<int>
    var players: seq<int>
    var turn: int

    /** Every entity the game points at is in the map. */
    ghost predicate Valid()
      reads this
    {
      && (forall k :: 0 <= k < |players| ==> players[k] in entities)
      && (gameEntity.Some? ==> gameEntity.value in entities)
    }

    constructor()
      ensures Valid() && !inBattlegrounds && entities == map[] && gameEntity.None? && players == [] && turn == 0
    {
      inBattlegrounds := false;
      entities := map[];
      gameEntity := Option.None;
      players := [];
      turn := 0;
    }

    /** `clear()`: forget every entity, the game entity and the players; the turn and the game
        type stay. */
    method Clear()
      modifies this
      ensures Valid() && entities == map[] && gameEntity.None? && players == []
      ensures inBattlegrounds == old(inBattlegrounds) && turn == old(turn)
    {
      entities := map[];
      gameEntity := Option.None;
      players := [];
    }
  }

  // ---------------------------------------------------------------------------
  // decode_controller

  /** `decode_controller`: the side of a controller, false for the player and true for the
      enemy. Without players it is the player's side; otherwise the test "is it the first
      player's controller", as 0 or 1, is compared with that player's dummy-player tag. */
  function DecodeController(es: map<int, Entity>, players: seq<int>, controller: int): (enemy: bool)
    requires players != [] ==> players[0] in es
    ensures players == [] ==> !enemy
    ensures players != [] && es[players[0]].isDummyPlayer == 0 ==>
              (enemy <==> controller != es[players[0]].controller)
    ensures players != [] && es[players[0]].isDummyPlayer == 1 ==>
              (enemy <==> controller == es[players[0]].controller)
    ensures players != [] && es[players[0]].isDummyPlayer != 0 && es[players[0]].isDummyPlayer != 1 ==> !enemy
  {
    if players == [] then false
    else
      var first := es[players[0]];
      (if controller == first.controller then 1 else 0) == first.isDummyPlayer
  }

  /** With a first player whose dummy tag is 0 or 1, its controller and any other controller
      are on opposite sides, and any two other controllers are on the same side. */
  lemma ControllerSides(es: map<int, Entity>, players: seq<int>, c1: int, c2: int)
    requires players != [] && players[0] in es
    requires es[players[0]].isDummyPlayer == 0 || es[players[0]].isDummyPlayer == 1
    requires c1 == es[players[0]].controller && c2 != c1
    ensures DecodeController(es, players, c1) != DecodeController(es, players, c2)
    ensures forall c3 :: c3 != c1 ==> DecodeController(es, players, c3) == DecodeController(es, players, c2)
  {
  }

  // ---------------------------------------------------------------------------
  // to_minion_type and to_hero_type

  /** The normal or the golden id of a table row; `None` for a null pointer. */
  function IdOf(i: MinionInfo, golden: bool): Option<string> {
    if golden then i.goldenId else i.normalId
  }

  /** The search of `to_minion_type` from row `i` on: the first row carrying `id`, with its
      normal id tried before its golden one. */
  function IdMatchFrom(c: Catalog, id: string, i: nat): (r: Option<(nat, bool)>)
    requires i <= |c.types|
    ensures r.Some? ==> i <= r.value.0 < |c.types| && IdOf(Row(c, r.value.0), r.value.1) == Some(id)
    ensures r.Some? && r.value.1 ==> IdOf(Row(c, r.value.0), false) != Some(id)
    ensures r.Some? ==> forall j, g :: i <= j < r.value.0 ==> IdOf(Row(c, j), g) != Some(id)
    ensures r.None? ==> forall j, g :: i <= j < |c.types| ==> IdOf(Row(c, j), g) != Some(id)
    decreases |c.types| - i
  {
    if i == |c.types| then Option.None
    else if IdOf(Row(c, i), false) == Some(id) then Some((i, false))
    else if IdOf(Row(c, i), true) == Some(id) then Some((i, true))
    else IdMatchFrom(c, id, i + 1)
  }

  /** `to_minion_type(hs_id, golden_out)`: the type found and the golden flag it reports;
      when no row carries the id, the type is `None` and the flag keeps `golden0`, the value the
      caller's variable already held. */
  function MinionTypeOf(c: Catalog, id: string, golden0: bool): (MinionType, bool) {
    match IdMatchFrom(c, id, 0)
    case Some(r) => (c.types[r.0], r.1)
    case None => (MinionType.None, golden0)
  }

  /** The loop of `to_minion_type`. */
  method ToMinionType(c: Catalog, id: string, golden0: bool) returns (t: MinionType, golden: bool)
    ensures (t, golden) == MinionTypeOf(c, id, golden0)
  {
    var i := 0;
    while i < |c.types|
      invariant i <= |c.types| && IdMatchFrom(c, id, i) == IdMatchFrom(c, id, 0)
    {
      for g := 0 to 2
        invariant g >= 1 ==> IdOf(Row(c, i), false) != Some(id)
        invariant g >= 2 ==> IdOf(Row(c, i), true) != Some(id)
      {
        if IdOf(Row(c, i), g > 0) == Some(id) {
          return c.types[i], g > 0;
        }
      }
      i := i + 1;
    }
    return MinionType.None, golden0;
  }

  /** No two id slots of the table carry the same id. */
  predicate DistinctMinionIds(c: Catalog) {
    forall j1, g1, j2, g2 ::
      (0 <= j1 < |c.types| && 0 <= j2 < |c.types| && IdOf(Row(c, j1), g1).Some? &&
       IdOf(Row(c, j1), g1) == IdOf(Row(c, j2), g2)) ==> j1 == j2 && g1 == g2
  }

  /** With distinct ids, looking up the id of a row gives back that row's type, golden exactly
      for the golden id. */
  lemma MinionTypeOfRow(c: Catalog, i: nat, golden: bool, golden0: bool)
    requires DistinctMinionIds(c) && i < |c.types| && IdOf(Row(c, i), golden).Some?
    ensures MinionTypeOf(c, IdOf(Row(c, i), golden).value, golden0) == (c.types[i], golden)
  {
    var id := IdOf(Row(c, i), golden).value;
    var r := IdMatchFrom(c, id, 0);
    assert r.Some?;
  }

  /** The search of `to_hero_type` from hero `i` on: the first hero whose own id or whose hero
      power's id is `id`. */
  function HeroMatchFrom(c: Catalog, id: string, i: nat): (r: Option<nat>)
    requires i <= |c.heroes|
    ensures r.Some? ==> i <= r.value < |c.heroes|
    ensures r.Some? ==> c.heroes[r.value].id == Some(id) || c.heroes[r.value].heroPower.id == Some(id)
    ensures r.Some? ==> forall j :: i <= j < r.value ==>
      c.heroes[j].id != Some(id) && c.heroes[j].heroPower.id != Some(id)
    ensures r.None? ==> forall j :: i <= j < |c.heroes| ==>
      c.heroes[j].id != Some(id) && c.heroes[j].heroPower.id != Some(id)
    decreases |c.heroes| - i
  {
    if i == |c.heroes| then Option.None
    else if c.heroes[i].id == Some(id) || c.heroes[i].heroPower.id == Some(id) then Some(i)
    else HeroMatchFrom(c, id, i + 1)
  }

  /** `to_hero_type(hs_id)`: the hero found, or 0 (`HeroType::None`). */
  function HeroTypeOf(c: Catalog, id: string): nat {
    match HeroMatchFrom(c, id, 0)
    case Some(h) => h
    case None => 0
  }

  /** The loop of `to_hero_type`. */
  method ToHeroType(c: Catalog, id: string) returns (h: nat)
    ensures h == HeroTypeOf(c, id)
  {
    var i := 0;
    while i < |c.heroes|
      invariant i <= |c.heroes| && HeroMatchFrom(c, id, i) == HeroMatchFrom(c, id, 0)
    {
      if c.heroes[i].id == Some(id) {
        return i;
      } else if c.heroes[i].heroPower.id == Some(id) {
        return i;
      }
      i := i + 1;
    }
    return 0;
  }

  /** No id is shared by two heroes, two hero powers, or a hero and a hero power. */
  predicate DistinctHeroIds(c: Catalog) {
    && (forall j1, j2 ::
          (0 <= j1 < |c.heroes| && 0 <= j2 < |c.heroes| && c.heroes[j1].id.Some? &&
           c.heroes[j1].id == c.heroes[j2].id) ==> j1 == j2)
    && (forall j1, j2 ::
          (0 <= j1 < |c.heroes| && 0 <= j2 < |c.heroes| && c.heroes[j1].heroPower.id.Some? &&
           c.heroes[j1].heroPower.id == c.heroes[j2].heroPower.id) ==> j1 == j2)
    && (forall j1, j2 :: 0 <= j1 < |c.heroes| && 0 <= j2 < |c.heroes| && c.heroes[j1].id.Some? ==>
          c.heroes[j1].id != c.heroes[j2].heroPower.id)
  }

  /** With distinct ids, a hero is found both by its own id and by its hero power's id. */
  lemma HeroTypeOfHero(c: Catalog, h: nat)
    requires DistinctHeroIds(c) && h < |c.heroes|
    ensures c.heroes[h].id.Some? ==> HeroTypeOf(c, c.heroes[h].id.value) == h
    ensures c.heroes[h].heroPower.id.Some? ==> HeroTypeOf(c, c.heroes[h].heroPower.id.value) == h
  {
    if c.heroes[h].id.Some? {
      assert HeroMatchFrom(c, c.heroes[h].id.value, 0).Some?;
    }
    if c.heroes[h].heroPower.id.Some? {
      assert HeroMatchFrom(c, c.heroes[h].heroPower.id.value, 0).Some?;
    }
  }

  // ---------------------------------------------------------------------------
  // convert_to_minion

  /** Whether entity `x` is an enchantment in play with card id `id`. */
  predicate PlayEnchantment(es: map<int, Entity>, x: int, id: string) {
    x in es && es[x].zone == Play && es[x].hsId == id
  }

  /** How many of `ench` are enchantments in play with card id `id`. */
  function CountPlay(es: map<int, Entity>, ench: seq<int>, id: string): (n: nat)
    ensures n <= |ench|
  {
    if ench == [] then 0
    else CountPlay(es, ench[..|ench| - 1], id) + (if PlayEnchantment(es, ench[|ench| - 1], id) then 1 else 0)
  }

  /** One attached entity: the three deathrattle enchantments in play add their summons; every
      other enchantment is already in the stats. */
  function EnchantStep(m: Minion, es: map<int, Entity>, x: int): Minion {
    if x in es && es[x].zone == Play then
      if es[x].hsId == "BOT_312e" then AddDeathrattleMicrobots(m, 3)
      else if es[x].hsId == "TB_BaconUps_032e" then AddDeathrattleGoldenMicrobots(m, 3)
      else if es[x].hsId == "UNG_999t2e" then AddDeathrattlePlants(m, 2)
      else m
    else m
  }

  /** The three counters after `n` replicating-menace, `g` golden replicating-menace and `p`
      plant enchantments: 3, 3 and 2 more summons each, saturating at `MaxCounter`. */
  function WithCounters(m: Minion, n: nat, g: nat, p: nat): (r: Minion)
    ensures r.deathrattleMicrobots <= MaxCounter && r.deathrattleGoldenMicrobots <= MaxCounter
    ensures r.deathrattlePlants <= MaxCounter
  {
    m.(deathrattleMicrobots := Min(m.deathrattleMicrobots + 3 * n, MaxCounter),
       deathrattleGoldenMicrobots := Min(m.deathrattleGoldenMicrobots + 3 * g, MaxCounter),
       deathrattlePlants := Min(m.deathrattlePlants + 2 * p, MaxCounter))
  }

  /** One more attached entity adds its summons to the counters reached so far. */
  lemma EnchantStepCounters(m0: Minion, n: nat, g: nat, p: nat, es: map<int, Entity>, x: int)
    requires m0.deathrattleMicrobots <= MaxCounter && m0.deathrattleGoldenMicrobots <= MaxCounter
    requires m0.deathrattlePlants <= MaxCounter
    ensures EnchantStep(WithCounters(m0, n, g, p), es, x) == WithCounters(m0,
      n + if PlayEnchantment(es, x, "BOT_312e") then 1 else 0,
      g + if PlayEnchantment(es, x, "TB_BaconUps_032e") then 1 else 0,
      p + if PlayEnchantment(es, x, "UNG_999t2e") then 1 else 0)
  {
  }

  /** Counting over one more entity. */
  lemma CountPlaySnoc(es: map<int, Entity>, ench: seq<int>, k: nat, id: string)
    requires k < |ench|
    ensures CountPlay(es, ench[..k + 1], id) == CountPlay(es, ench[..k], id) + if PlayEnchantment(es, ench[k], id) then 1 else 0
  {
    assert ench[..k + 1][..k] == ench[..k];
  }

  /** One attached entity of the enchantment loop of `convert_to_minion`. */
  method AddEnchantment(m: Minion, es: map<int, Entity>, x: int) returns (r: Minion)
    ensures r == EnchantStep(m, es, x)
  {
    r := m;
    if x in es && es[x].zone == Play {
      if es[x].hsId == "BOT_312e" {
        r := AddDeathrattleMicrobots(r, 3);
      } else if es[x].hsId == "TB_BaconUps_032e" {
        r := AddDeathrattleGoldenMicrobots(r, 3);
      } else if es[x].hsId == "UNG_999t2e" {
        r := AddDeathrattlePlants(r, 2);
      }
    }
  }

  /** `m` is `m0` with the counters raised by the enchantments of `ench`. */
  predicate CountersAfter(m: Minion, m0: Minion, es: map<int, Entity>, ench: seq<int>) {
    m == WithCounters(m0, CountPlay(es, ench, "BOT_312e"), CountPlay(es, ench, "TB_BaconUps_032e"),
                      CountPlay(es, ench, "UNG_999t2e"))
  }

  /** One more entity of the enchantment loop keeps `CountersAfter`. */
  lemma CountersAfterStep(m: Minion, m0: Minion, es: map<int, Entity>, ench: seq<int>, k: nat)
    requires m0.deathrattleMicrobots <= MaxCounter && m0.deathrattleGoldenMicrobots <= MaxCounter
    requires m0.deathrattlePlants <= MaxCounter
    requires k < |ench| && CountersAfter(m, m0, es, ench[..k])
    ensures CountersAfter(EnchantStep(m, es, ench[k]), m0, es, ench[..k + 1])
  {
    hide WithCounters, EnchantStep, CountPlay, PlayEnchantment;
    EnchantStepCounters(m0, CountPlay(es, ench[..k], "BOT_312e"), CountPlay(es, ench[..k], "TB_BaconUps_032e"),
                        CountPlay(es, ench[..k], "UNG_999t2e"), es, ench[k]);
    CountPlaySnoc(es, ench, k, "BOT_312e");
    CountPlaySnoc(es, ench, k, "TB_BaconUps_032e");
    CountPlaySnoc(es, ench, k, "UNG_999t2e");
  }

  /** The enchantment loop of `convert_to_minion`: the attached entities, in order, raise only
      the three deathrattle counters, each saturating at `MaxCounter`. */
  method ApplyEnchantments(m0: Minion, es: map<int, Entity>, ench: seq<int>) returns (m: Minion)
    requires m0.deathrattleMicrobots <= MaxCounter && m0.deathrattleGoldenMicrobots <= MaxCounter
    requires m0.deathrattlePlants <= MaxCounter
    ensures CountersAfter(m, m0, es, ench)
  {
    m := m0;
    assert CountersAfter(m, m0, es, ench[..0]);
    hide CountersAfter, EnchantStep;
    for k := 0 to |ench|
      invariant CountersAfter(m, m0, es, ench[..k])
    {
      CountersAfterStep(m, m0, es, ench, k);
      m := AddEnchantment(m, es, ench[k]);
    }
    assert ench[..|ench|] == ench;
  }

  /** The minion `convert_to_minion` builds before the enchantments, with `golden0` the value
      of its `golden` variable before `to_minion_type` (which leaves it unset for an unknown
      card id): the table's type, golden when the table or the premium tag says so, the
      entity's stats, and the table's keywords plus the entity's. */
  function BaseMinion(c: Catalog, e: Entity, golden0: bool): (m: Minion)
    ensures m.deathrattleMicrobots == 0 && m.deathrattleGoldenMicrobots == 0 && m.deathrattlePlants == 0
  {
    var r := MinionTypeOf(c, e.hsId, golden0);
    var m0 := Make(c, r.0, r.1 || e.premium != 0);
    m0.(attack := e.attack, health := e.health,
        taunt := m0.taunt || e.taunt != 0, divineShield := m0.divineShield || e.divineShield != 0,
        poison := m0.poison || e.poisonous != 0, windfury := m0.windfury || e.windfury != 0)
  }

  /** `convert_to_minion(entity)` as written, with `golden0` the uninitialised value. */
  function ConvertedFrom(c: Catalog, es: map<int, Entity>, e: Entity, golden0: bool): Minion {
    WithCounters(BaseMinion(c, e, golden0), CountPlay(es, e.enchantments, "BOT_312e"),
      CountPlay(es, e.enchantments, "TB_BaconUps_032e"), CountPlay(es, e.enchantments, "UNG_999t2e"))
  }

  /** `convert_to_minion` with its `golden` variable starting out false. */
  function Converted(c: Catalog, es: map<int, Entity>, e: Entity): Minion {
    ConvertedFrom(c, es, e, false)
  }

  /** For a card id the table does not know, the converted minion's golden flag is whatever
      the uninitialised variable held: with premium 0 the two possible values give two
      different minions. */
  lemma UninitialisedGolden(c: Catalog, es: map<int, Entity>, e: Entity)
    requires IdMatchFrom(c, e.hsId, 0).None? && e.premium == 0
    ensures ConvertedFrom(c, es, e, true).golden && !ConvertedFrom(c, es, e, false).golden
  {
  }

  /** With `golden` starting out false, an unknown card id gives an empty-type minion that is
      golden only through the premium tag. */
  lemma UnknownIdNotGolden(c: Catalog, es: map<int, Entity>, e: Entity)
    requires IdMatchFrom(c, e.hsId, 0).None?
    ensures Converted(c, es, e).kind == MinionType.None
    ensures Converted(c, es, e).golden == (e.premium != 0)
  {
  }

  /** What `convert_to_minion` produces with `golden` initialised to false: the table's type
      for the card id, golden when the table or the premium tag says so, the entity's own stats,
      the table's keywords plus the entity's, no reborn or murloc deathrattle, and the three
      deathrattle counters raised by the enchantments in play. */
  lemma ConvertedMinion(c: Catalog, es: map<int, Entity>, e: Entity)
    ensures var m := Converted(c, es, e); var r := MinionTypeOf(c, e.hsId, false);
      && m.kind == r.0 && m.golden == (r.1 || e.premium != 0)
      && m.attack == e.attack && m.health == e.health
      && m.taunt == (c.info(r.0).taunt || e.taunt != 0)
      && m.divineShield == (c.info(r.0).divineShield || e.divineShield != 0)
      && m.poison == (c.info(r.0).poison || e.poisonous != 0)
      && m.windfury == (c.info(r.0).windfury || e.windfury != 0)
      && !m.reborn && m.deathrattleMurlocs == 0
      && m.deathrattleMicrobots == Min(3 * CountPlay(es, e.enchantments, "BOT_312e"), MaxCounter)
      && m.deathrattleGoldenMicrobots == Min(3 * CountPlay(es, e.enchantments, "TB_BaconUps_032e"), MaxCounter)
      && m.deathrattlePlants == Min(2 * CountPlay(es, e.enchantments, "UNG_999t2e"), MaxCounter)
  {
  }

  /** `convert_to_minion(entity)`, with `golden` initialised to false. */
  method ConvertToMinion(c: Catalog, es: map<int, Entity>, e: Entity) returns (m: Minion)
    ensures m == Converted(c, es, e)
  {
    hide MinionTypeOf, IdMatchFrom, WithCounters;
    var t, golden := ToMinionType(c, e.hsId, false);
    golden := golden || e.premium != 0;
    m := Make(c, t, golden);
    m := m.(attack := e.attack, health := e.health);
    // a keyword tag that is set turns the keyword on; one that is 0 leaves the table's
    m := m.(taunt := m.taunt || e.taunt != 0, divineShield := m.divineShield || e.divineShield != 0);
    m := m.(poison := m.poison || e.poisonous != 0, windfury := m.windfury || e.windfury != 0);
    assert m == BaseMinion(c, e, false);
    hide BaseMinion;
    m := ApplyEnchantments(m, es, e.enchantments);
  }

  // ---------------------------------------------------------------------------
  // to_board_state

  /** The two boards of `PreBattleState`: index 0 (the player) and index 1 (the enemy). */
  datatype PreBattleState = PreBattleState(player: BoardState, enemy: BoardState)

  function Side(s: PreBattleState, enemy: bool): BoardState {
    if enemy then s.enemy else s.player
  }

  function WithSide(s: PreBattleState, enemy: bool, b: BoardState): PreBattleState {
    if enemy then s.(enemy := b) else s.(player := b)
  }

  predicate FullBoards(s: PreBattleState) {
    |s.player.slots| == BoardSize && |s.enemy.slots| == BoardSize
  }

  /** The entities an iteration over the map visits: each key once. */
  predicate Enumerates(order: seq<int>, es: map<int, Entity>) {
    && (forall k :: 0 <= k < |order| ==> order[k] in es)
    && (forall x :: x in es ==> x in order)
    && (forall k1, k2 :: 0 <= k1 < k2 < |order| ==> order[k1] != order[k2])
  }

  /** Whether entity `x` is a minion in play that `to_board_state` puts in slot `pos` of side
      `enemy`. */
  predicate Targets(es: map<int, Entity>, players: seq<int>, x: int, enemy: bool, pos: int)
    requires players != [] ==> players[0] in es
  {
    x in es && es[x].zone == Play && es[x].cardType == MinionEntity && es[x].zonePosition - 1 == pos
    && DecodeController(es, players, es[x].controller) == enemy
  }

  /** Whether entity `x` is a hero in play on side `enemy`. */
  predicate HeroOn(es: map<int, Entity>, players: seq<int>, x: int, enemy: bool)
    requires players != [] ==> players[0] in es
  {
    x in es && es[x].zone == Play && es[x].cardType == HeroEntity
    && DecodeController(es, players, es[x].controller) == enemy
  }

  /** One entity of the loop of `to_board_state`: a minion in play goes to the slot before its
      zone position when that is a slot; a hero in play sets its side's level, health (health
      minus damage) and hero. Everything else changes nothing. */
  function PlaceEntity(c: Catalog, es: map<int, Entity>, players: seq<int>, x: int, s: PreBattleState)
    : (r: PreBattleState)
    requires players != [] ==> players[0] in es
    requires x in es && FullBoards(s)
    ensures FullBoards(r)
  {
    var e := es[x];
    var enemy := DecodeController(es, players, e.controller);
    var b := Side(s, enemy);
    if e.zone != Play then s
    else if e.cardType == MinionEntity then
      var pos := e.zonePosition - 1;
      if 0 <= pos < BoardSize then WithSide(s, enemy, b.(slots := b.slots[pos := Converted(c, es, e)])) else s
    else if e.cardType == HeroEntity then
      WithSide(s, enemy, b.(level := e.techLevel, health := e.health - e.damage, hero := HeroTypeOf(c, e.hsId)))
    else s
  }

  /** The boards after visiting the entities of `order`, from two empty boards. */
  function Placed(c: Catalog, es: map<int, Entity>, players: seq<int>, order: seq<int>): (r: PreBattleState)
    requires players != [] ==> players[0] in es
    requires forall k :: 0 <= k < |order| ==> order[k] in es
    ensures FullBoards(r)
  {
    if order == [] then PreBattleState(FreshBoard().board, FreshBoard().board)
    else PlaceEntity(c, es, players, order[|order| - 1], Placed(c, es, players, order[..|order| - 1]))
  }

  /** The last index of `order` whose entity targets slot `pos` of side `enemy`, or -1. */
  function LastTarget(es: map<int, Entity>, players: seq<int>, order: seq<int>, enemy: bool, pos: int): (r: int)
    requires players != [] ==> players[0] in es
    ensures -1 <= r < |order|
    ensures r >= 0 ==> Targets(es, players, order[r], enemy, pos)
    ensures forall k :: r < k < |order| ==> !Targets(es, players, order[k], enemy, pos)
  {
    if order == [] then -1
    else if Targets(es, players, order[|order| - 1], enemy, pos) then |order| - 1
    else LastTarget(es, players, order[..|order| - 1], enemy, pos)
  }

  /** Each slot holds the minion of the last entity targeting it, in iteration order, or stays
      empty when none does. */
  lemma {:induction false} PlacedSlot(c: Catalog, es: map<int, Entity>, players: seq<int>, order: seq<int>,
                                      enemy: bool, pos: nat)
    requires players != [] ==> players[0] in es
    requires (forall k :: 0 <= k < |order| ==> order[k] in es) && pos < BoardSize
    ensures var t := LastTarget(es, players, order, enemy, pos);
      Side(Placed(c, es, players, order), enemy).slots[pos] ==
        if t < 0 then Empty() else Converted(c, es, es[order[t]])
  {
    hide Converted, HeroTypeOf, DecodeController;
    if order != [] {
      PlacedSlot(c, es, players, order[..|order| - 1], enemy, pos);
    }
  }

  /** When no two minions in play claim the same slot, every slot holds the minion that claims
      it, or is empty: the boards do not depend on the map's iteration order. */
  lemma PlacedSlotUnique(c: Catalog, es: map<int, Entity>, players: seq<int>, order: seq<int>,
                         enemy: bool, pos: nat)
    requires players != [] ==> players[0] in es
    requires Enumerates(order, es) && pos < BoardSize
    requires forall x, y :: Targets(es, players, x, enemy, pos) && Targets(es, players, y, enemy, pos) ==> x == y
    ensures (forall x :: !Targets(es, players, x, enemy, pos)) ==>
      Side(Placed(c, es, players, order), enemy).slots[pos] == Empty()
    ensures forall x :: Targets(es, players, x, enemy, pos) ==>
      Side(Placed(c, es, players, order), enemy).slots[pos] == Converted(c, es, es[x])
  {
    PlacedSlot(c, es, players, order, enemy, pos);
    var t := LastTarget(es, players, order, enemy, pos);
    forall x | Targets(es, players, x, enemy, pos)
      ensures t >= 0 && order[t] == x
    {
      var k :| 0 <= k < |order| && order[k] == x;
    }
  }

  /** The last index of `order` whose entity is a hero in play on side `enemy`, or -1. */
  function LastHero(es: map<int, Entity>, players: seq<int>, order: seq<int>, enemy: bool): (r: int)
    requires players != [] ==> players[0] in es
    ensures -1 <= r < |order|
    ensures r >= 0 ==> HeroOn(es, players, order[r], enemy)
    ensures forall k :: r < k < |order| ==> !HeroOn(es, players, order[k], enemy)
  {
    if order == [] then -1
    else if HeroOn(es, players, order[|order| - 1], enemy) then |order| - 1
    else LastHero(es, players, order[..|order| - 1], enemy)
  }

  /** A side's level, health and hero come from the last hero in play on that side, its health
      less its damage; without one they stay 0. */
  lemma {:induction false} PlacedHero(c: Catalog, es: map<int, Entity>, players: seq<int>, order: seq<int>, enemy: bool)
    requires players != [] ==> players[0] in es
    requires forall k :: 0 <= k < |order| ==> order[k] in es
    ensures var t := LastHero(es, players, order, enemy); var b := Side(Placed(c, es, players, order), enemy);
      if t < 0 then b.level == 0 && b.health == 0 && b.hero == 0
      else var e := es[order[t]];
        b.level == e.techLevel && b.health == e.health - e.damage && b.hero == HeroTypeOf(c, e.hsId)
  {
    hide Converted, HeroTypeOf, DecodeController;
    if order != [] {
      PlacedHero(c, es, players, order[..|order| - 1], enemy);
    }
  }

  /** The body of the loop of `to_board_state` for entity `x`. */
  method PlaceOne(c: Catalog, g: HSGame, x: int, mine: Board, theirs: Board)
    requires g.Valid() && x in g.entities && mine.Valid() && theirs.Valid()
    requires mine.base.minions != theirs.base.minions
    requires FullBoards(PreBattleState(StateOf(mine), StateOf(theirs)))
    modifies mine, mine.base.minions, theirs, theirs.base.minions
    ensures mine.Valid() && theirs.Valid()
    ensures PreBattleState(StateOf(mine), StateOf(theirs)) ==
      PlaceEntity(c, g.entities, g.players, x, old(PreBattleState(StateOf(mine), StateOf(theirs))))
  {
    hide Converted, HeroTypeOf, DecodeController;
    var e := g.entities[x];
    var enemy := DecodeController(g.entities, g.players, e.controller);
    var b := if enemy then theirs else mine;
    if e.zone == Play {
      if e.cardType == MinionEntity {
        var pos := e.zonePosition - 1;
        if 0 <= pos < BoardSize {
          var m := ConvertToMinion(c, g.entities, e);
          b.base.minions[pos] := m;
        }
      } else if e.cardType == HeroEntity {
        var h := ToHeroType(c, e.hsId);
        b.level := e.techLevel;
        b.health := e.health - e.damage;
        b.hero := h;
      }
    }
  }

  /** `to_board_state(game)` with the map's iteration order as `order`: two fresh boards filled
      entity by entity. */
  method ToBoardState(c: Catalog, g: HSGame, order: seq<int>) returns (mine: Board, theirs: Board)
    requires g.Valid() && Enumerates(order, g.entities)
    ensures fresh(mine) && fresh(mine.base) && fresh(mine.base.minions) && mine.Valid()
    ensures fresh(theirs) && fresh(theirs.base) && fresh(theirs.base.minions) && theirs.Valid()
    ensures PreBattleState(StateOf(mine), StateOf(theirs)) == Placed(c, g.entities, g.players, order)
  {
    hide PlaceEntity;
    mine := new Board();
    theirs := new Board();
    assert PreBattleState(StateOf(mine), StateOf(theirs)) == Placed(c, g.entities, g.players, order[..0]);
    for k := 0 to |order|
      invariant fresh(mine) && fresh(mine.base) && fresh(mine.base.minions) && mine.Valid()
      invariant fresh(theirs) && fresh(theirs.base) && fresh(theirs.base.minions) && theirs.Valid()
      invariant mine.base.minions != theirs.base.minions
      invariant PreBattleState(StateOf(mine), StateOf(theirs)) == Placed(c, g.entities, g.players, order[..k])
    {
      assert order[..k + 1][..k] == order[..k];
      PlaceOne(c, g, order[k], mine, theirs);
    }
    assert order[..|order|] == order;
  }
}
