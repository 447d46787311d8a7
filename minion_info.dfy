// src/minion_info.hpp: the static per-type information table and its queries.
// The table itself is generated data (src/minion_info.cpp); here it is a parameter, a Catalog.
module MinionInfo {
  import opened Util
  import opened Tribes

  /** Every minion type the simulator's logic names, plus the remaining rows of the
      generated enumeration, known only by their ordinal. `None` is the empty slot. */
  datatype MinionType =
    | None
    | BaronRivendare | BigBadWolf | BolvarFireblood | BrannBronzebeard | CobaltGuardian
    | CrowdFavorite | DamagedGolem | DireWolfAlpha | FesterootHulk | FinkleEinhorn
    | Ghastcoiler | GoldrinnTheGreatWolf | GuardBot | HarvestGolem | Hyena | Imp
    | ImpGangBoss | InfestedWolf | IronhideDirehorn | IronhideRunt | JoEBot | Junkbot
    | KaboomBot | KangorsApprentice | Khadgar | KindlyGrandmother | KingBagurgle
    | MalGanis | MamaBear | MechanoEgg | Mecharoo | Microbot | MountedRaptor
    | MurlocScout | MurlocTidecaller | MurlocWarleader | OldMurkEye | PackLeader
    | PhalanxCommander | PilotedShredder | PilotedSkyGolem | Plant | PreNerfMamaBear
    | Rat | RatPack | ReplicatingMenace | Robosaur | SatedThreshadon | SavannahHighmane
    | ScavengingHyena | SecurityRover | SelflessHero | Siegebreaker | SneedsOldShredder
    | SoulJuggler | SpawnOfNZoth | Spider | TheBeast | TheBoogeymonster
    | TortollanShellraiser | WrathWeaver | ZappSlywick
    | Other(ordinal: nat)

  /** The hero powers the battle applies (hero_powers.hpp is generated; only its enum is used). */
  datatype HeroPower =
    | None | Nefarian | RagnarosTheFirelord | PatchesThePirate | TheLichKing
    | Giantfin | ProfessorPutricide

  /** One row of `minion_info`: name, Hearthstone ids for the normal and golden card, tavern
      tier, tribe, base stats and keywords. A missing id is a null pointer in the table. */
  datatype MinionInfo = MinionInfo(
    name: string,
    normalId: Option<string>,
    goldenId: Option<string>,
    stars: int,
    tribe: Tribe,
    attack: int,
    health: int,
    taunt: bool,
    divineShield: bool,
    poison: bool,
    windfury: bool,
    cleave: bool)

  datatype HeroPowerInfo = HeroPowerInfo(name: string, id: Option<string>)
  datatype HeroInfo = HeroInfo(name: string, id: Option<string>, heroPower: HeroPowerInfo)

  /** The generated tables. `types` lists the enumeration in ordinal order (so `minion_info[i]`
      is `info(types[i])`); the five lists feed the random-minion helpers of minion_info.cpp. */
  datatype Catalog = Catalog(
    info: MinionType -> MinionInfo,
    types: seq<MinionType>,
    heroes: seq<HeroInfo>,
    tribeNames: seq<string>,
    oneCostMinions: seq<MinionType>,
    twoCostMinions: seq<MinionType>,
    fourCostMinions: seq<MinionType>,
    deathrattleMinions: seq<MinionType>,
    legendaryMinions: seq<MinionType>)

  /** What the rest of the program relies on: the tables are non-empty where they are indexed
      at random, none of them offers the empty type, and row 0 of the minion table is the empty
      type. */
  predicate WellFormed(c: Catalog) {
    && |c.types| > 0 && c.types[0] == MinionType.None
    && |c.tribeNames| == TribeCount
    && |c.oneCostMinions| > 0 && |c.twoCostMinions| > 0 && |c.fourCostMinions| > 0
    && |c.deathrattleMinions| > 0 && |c.legendaryMinions| > 0
    && MinionType.None !in c.oneCostMinions && MinionType.None !in c.twoCostMinions
    && MinionType.None !in c.fourCostMinions && MinionType.None !in c.deathrattleMinions
    && MinionType.None !in c.legendaryMinions
  }

  /** The tables as the battle reads them: well formed. */
  type Tables = c: Catalog | WellFormed(c)
    witness Catalog(_ => MinionInfo("", Option.None, Option.None, 1, Tribe.None, 1, 1, false, false, false, false, false),
                    [MinionType.None], [], seq(TribeCount, _ => ""), [MinionType.Imp], [MinionType.Imp],
                    [MinionType.Imp], [MinionType.Imp], [MinionType.Imp])

  function DoubleIfGolden(x: int, golden: bool): int {
    if golden then 2 * x else x
  }

  function AttackFor(i: MinionInfo, golden: bool): int { DoubleIfGolden(i.attack, golden) }
  function HealthFor(i: MinionInfo, golden: bool): int { DoubleIfGolden(i.health, golden) }

  /** Golden stats are exactly double the normal ones; normal stats are the table's. */
  lemma GoldenDoublesStats(i: MinionInfo)
    ensures AttackFor(i, true) == 2 * AttackFor(i, false) && AttackFor(i, false) == i.attack
    ensures HealthFor(i, true) == 2 * HealthFor(i, false) && HealthFor(i, false) == i.health
  {
  }

  function TribeOf(c: Catalog, t: MinionType): Tribe { c.info(t).tribe }

  predicate TypeHasTribe(c: Catalog, t: MinionType, query: Tribe) {
    HasTribe(TribeOf(c, t), query)
  }

  /** The per-type tribe query is the tribe query applied to the table's tribe. */
  lemma TypeHasTribeMeansTable(c: Catalog, t: MinionType, query: Tribe)
    requires TribeOf(c, t) != All
    ensures TypeHasTribe(c, t, query) <==> c.info(t).tribe == query
  {
  }

  /** `minion_info[i]` for an ordinal `i` of the enumeration. */
  function Row(c: Catalog, i: nat): MinionInfo
    requires i < |c.types|
  {
    c.info(c.types[i])
  }

  function HeroName(c: Catalog, h: nat): string
    requires h < |c.heroes|
  {
    c.heroes[h].name
  }
}
