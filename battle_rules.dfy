// src/battle.hpp, src/battle.cpp, src/minion_events.cpp and src/hero_powers.cpp, as functions
// of the whole battle state. Each function follows one member of `Battle` statement by statement
// and is the specification the corresponding method of the `Battle` class (battles.dfy) is
// proved against; the lemmas at the end state what the source promises about them.
module BattleRules {
  import opened Util
  import opened Tribes
  import opened MinionInfo
  import opened Minions
  import opened MinionArrays
  import opened Boards
  import opened MinionEvents
  import opened Rng
  import opened Sweeps

  /** `MAX_MECHS_THAT_DIED`: Kangor's Apprentice remembers the first four dead mechs. */
  const MaxMechsThatDied := 4

  type Player = p: int | 0 <= p <= 1

  /** One player's part of the battle: the board's slots, tracked positions, next attacker and
      hero power, and the mechs that died on that side. */
  datatype Side = Side(slots: seq<Minion>, track: seq<int>, next: int, heroPower: HeroPower, mechs: seq<Minion>)

  /** The battle: both sides, the player to attack next (-1 before `start`) and the generator. */
  datatype BattleState = BattleState(side0: BoardSide, side1: BoardSide, turn: int, rng: State)

  function SideOf(g: BattleState, p: Player): BoardSide {
    if p == 0 then g.side0 else g.side1
  }

  function WithSide(g: BattleState, p: Player, s: BoardSide): (r: BattleState)
    ensures SideOf(r, p) == s && SideOf(r, 1 - p) == SideOf(g, 1 - p)
    ensures r.turn == g.turn && r.rng == g.rng
  {
    if p == 0 then g.(side0 := s) else g.(side1 := s)
  }

  function Slots(g: BattleState, p: Player): seq<Minion> { SideOf(g, p).slots }

  function Size(g: BattleState, p: Player): nat { SizeOf(Slots(g, p)) }

  // ---------------------------------------------------------------------------
  // The invariant and how the event handlers keep it

  /** What every board of a battle satisfies between two statements of the source: seven
      slots whose minions form a prefix, three tracked positions of which the first is -1 or a
      live slot, a non-negative next attacker and four slots of dead mechs. */
  ghost predicate SideInv(s: Side) {
    && |s.slots| == BoardSize && LivePrefix(s.slots)
    && |s.track| == NumExtraPos && TrackValid(s.track[0], SizeOf(s.slots))
    && s.next >= 0 && |s.mechs| == MaxMechsThatDied
  }

  /** A board as a battle holds it: the invariant always holds. */
  type BoardSide = s: Side | SideInv(s)
    witness Side(seq(BoardSize, _ => Empty()), [-1, 0, 0], 0, HeroPower.None, seq(MaxMechsThatDied, _ => Empty()))

  /** Between two sweeps for dead minions a board only grows: no minion leaves it, a tracked
      position that names a minion keeps naming one and a lost one (-1) stays lost. */
  ghost predicate Grows(a: BoardSide, b: BoardSide) {
    && SizeOf(a.slots) <= SizeOf(b.slots) && b.heroPower == a.heroPower
    && forall j :: 0 <= j < NumExtraPos ==>
         (0 <= a.track[j] < SizeOf(a.slots) ==> 0 <= b.track[j] < SizeOf(b.slots))
         && (a.track[j] == -1 ==> b.track[j] == -1)
  }

  ghost predicate Extends(g: BattleState, r: BattleState) {
    Grows(g.side0, r.side0) && Grows(g.side1, r.side1) && r.turn == g.turn
  }

  lemma ExtendsReflexive(g: BattleState)
    ensures Extends(g, g)
  {
    GrowsReflexive(g.side0);
    GrowsReflexive(g.side1);
  }

  lemma ExtendsKeepsHeroPowers(g: BattleState, r: BattleState)
    requires Extends(g, r)
    ensures r.side0.heroPower == g.side0.heroPower && r.side1.heroPower == g.side1.heroPower
  {
  }

  lemma ExtendsTrans(a: BattleState, b: BattleState, c: BattleState)
    requires Extends(a, b) && Extends(b, c)
    ensures Extends(a, c)
  {
  }

  lemma GrowsReflexive(a: BoardSide)
    ensures Grows(a, a)
  {
  }

  /** A board whose minions keep their types keeps its size and its invariant. */
  lemma SameKindsGrows(a: BoardSide, b: Side)
    requires SameKinds(a.slots, b.slots)
    requires b.track == a.track && b.next == a.next && |b.mechs| == |a.mechs| && b.heroPower == a.heroPower
    ensures Grows(a, b) && SizeOf(b.slots) == SizeOf(a.slots)
  {
    SameKindsSameShape(a.slots, b.slots);
  }

  /** Replace the slots of board `p` by slots holding the same types. */
  function WithKinds(g: BattleState, p: Player, t: seq<Minion>): (r: BattleState)
    requires SameKinds(Slots(g, p), t)
    ensures Extends(g, r) && r.rng == g.rng && Size(r, p) == Size(g, p)
    ensures SideOf(r, p) == SideOf(g, p).(slots := t) && SideOf(r, 1 - p) == SideOf(g, 1 - p)
  {
    var s := SideOf(g, p);
    SameKindsGrows(s, s.(slots := t));
    GrowsReflexive(SideOf(g, 1 - p));
    WithSide(g, p, s.(slots := t))
  }

  /** Replace the minion of a live slot by one of the same type. */
  function WithSlot(g: BattleState, p: Player, i: nat, m: Minion): (r: BattleState)
    requires i < Size(g, p) && m.kind == Slots(g, p)[i].kind
    ensures Extends(g, r) && r.rng == g.rng && Size(r, p) == Size(g, p)
    ensures Slots(r, p) == Slots(g, p)[i := m] && SideOf(r, 1 - p) == SideOf(g, 1 - p)
  {
    var s := Slots(g, p);
    assert SameKinds(s, s[i := m]);
    WithKinds(g, p, s[i := m])
  }

  lemma MapSameKinds(s: seq<Minion>, k: nat, f: Minion -> Minion, aliveOnly: bool)
    requires k <= |s| && forall m :: f(m).kind == m.kind
    ensures SameKinds(s, MapPrefix(s, k, f, aliveOnly))
  {
  }

  /** Apply `f` to the live prefix (to its living minions only when `aliveOnly`). */
  function MapSlots(g: BattleState, p: Player, f: Minion -> Minion, aliveOnly: bool): (r: BattleState)
    requires forall m :: f(m).kind == m.kind
    ensures Extends(g, r) && r.rng == g.rng && Size(r, p) == Size(g, p)
    ensures Slots(r, p) == MapPrefix(Slots(g, p), Size(g, p), f, aliveOnly)
    ensures SideOf(r, 1 - p) == SideOf(g, 1 - p)
  {
    MapSameKinds(Slots(g, p), Size(g, p), f, aliveOnly);
    WithKinds(g, p, MapPrefix(Slots(g, p), Size(g, p), f, aliveOnly))
  }

  function Full(g: BattleState, p: Player): bool
  {
    Exists(Slots(g, p)[BoardSize - 1])
  }

  /** By the live prefix, an occupied slot lies below the size. */
  lemma SizeCoversExisting(g: BattleState, p: Player, i: nat)
    requires i < BoardSize && Exists(Slots(g, p)[i])
    ensures i < Size(g, p)
  {
  }

  lemma FullIsSize(g: BattleState, p: Player)
    ensures Full(g, p) <==> Size(g, p) == BoardSize
  {
  }

  /** `extra_summon_count()` (Khadgar) and `extra_deathrattle_count()` (Baron Rivendare). */
  function ExtraSummons(g: BattleState, p: Player): int {
    HaveLevel(Live(Slots(g, p)), Khadgar) + 1
  }

  function ExtraDeathrattles(g: BattleState, p: Player): int {
    HaveLevel(Live(Slots(g, p)), BaronRivendare) + 1
  }

  // ---------------------------------------------------------------------------
  // Summoning

  /** `board.insert(pos, m)` on a board that is not full. */
  function InsertAt(g: BattleState, p: Player, pos: nat, m: Minion): (r: BattleState)
    requires pos <= Size(g, p) < BoardSize && Exists(m)
    ensures Extends(g, r) && r.rng == g.rng && Size(r, p) == Size(g, p) + 1
    ensures Slots(r, p)[pos] == m
  {
    GrowsReflexive(SideOf(g, 1 - p));
    WithSide(g, p, SideAfterInsert(SideOf(g, p), pos, m))
  }

  /** `Board::insert` on one side: the slots, the next attacker and the tracked positions move. */
  function SideAfterInsert(s: BoardSide, pos: nat, m: Minion): (t: BoardSide)
    requires pos <= SizeOf(s.slots) < BoardSize && Exists(m)
    ensures Grows(s, t) && SizeOf(t.slots) == SizeOf(s.slots) + 1 && t.slots[pos] == m
  {
    InsertedLive(s.slots, pos, m);
    var t := s.(slots := Inserted(s.slots, pos, m), next := NextAttackerAfterInsert(s.next, pos),
                track := TracksAfterInsert(s.track, pos));
    assert Grows(s, t) by {
      forall j | 0 <= j < NumExtraPos
        ensures t.track[j] == TrackAfterInsert(s.track[j], pos)
      {
      }
    }
    t
  }

  /** `board.append(m)` on a board that is not full: the minion lands in the first empty slot. */
  function AppendAt(g: BattleState, p: Player, m: Minion): (r: BattleState)
    requires Size(g, p) < BoardSize && Exists(m)
    ensures Extends(g, r) && r.rng == g.rng && Size(r, p) == Size(g, p) + 1
    ensures Slots(r, p)[Size(g, p)] == m
  {
    var s := SideOf(g, p);
    AppendedLive(s.slots, m);
    GrowsReflexive(SideOf(g, 1 - p));
    WithSide(g, p, s.(slots := Appended(s.slots, m)))
  }

  /** One friend's `on_friendly_summon` for the minion in slot `pos` of board `q`. The friend
      and the summoned minion may be the same slot, so the second update reads the first. */
  function SummonTrigger(c: Tables, g: BattleState, p: Player, q: Player, pos: nat, i: nat): (r: BattleState)
    requires i < Size(g, p) && pos < Size(g, q)
    ensures Extends(g, r) && r.rng == g.rng
    ensures Size(r, 0) == Size(g, 0) && Size(r, 1) == Size(g, 1)
  {
    ApplySummonEffect(g, p, q, pos, i, OnFriendlySummon(c, Slots(g, p)[i], Slots(g, q)[pos], false))
  }

  /** The friend's part of effect `e` first, then the summoned minion's part. */
  function ApplySummonEffect(g: BattleState, p: Player, q: Player, pos: nat, i: nat, e: SummonEffect): (r: BattleState)
    requires i < Size(g, p) && pos < Size(g, q)
    ensures Extends(g, r) && r.rng == g.rng
    ensures Size(r, 0) == Size(g, 0) && Size(r, 1) == Size(g, 1)
  {
    EffectKeepsKinds(e, Slots(g, p)[i], Slots(g, q)[pos]);
    var g1 := WithSlot(g, p, i, ApplyToSelf(e, Slots(g, p)[i]));
    EffectKeepsKinds(e, Slots(g1, p)[i], Slots(g1, q)[pos]);
    var g2 := WithSlot(g1, q, pos, ApplyToSummoned(e, Slots(g1, q)[pos]));
    ExtendsTrans(g, g1, g2);
    g2
  }

  /** `on_summoned(summoned, p)`: `for_each_alive` over board `p`, from slot `i` on. */
  function SummonTriggers(c: Tables, g: BattleState, p: Player, q: Player, pos: nat, i: nat): (r: BattleState)
    requires pos < Size(g, q)
    ensures Extends(g, r) && r.rng == g.rng
    ensures Size(r, 0) == Size(g, 0) && Size(r, 1) == Size(g, 1)
    decreases BoardSize - i
  {
    if i < BoardSize && Exists(Slots(g, p)[i]) then
      var g1 := SummonTriggerIfAlive(c, g, p, q, pos, i);
      var r := SummonTriggers(c, g1, p, q, pos, i + 1);
      ExtendsTrans(g, g1, r);
      r
    else
      ExtendsReflexive(g);
      g
  }

  /** One friend of that loop: a living one reacts, a dead one is skipped. */
  function SummonTriggerIfAlive(c: Tables, g: BattleState, p: Player, q: Player, pos: nat, i: nat): (r: BattleState)
    requires i < BoardSize && Exists(Slots(g, p)[i]) && pos < Size(g, q)
    ensures Extends(g, r) && r.rng == g.rng
    ensures Size(r, 0) == Size(g, 0) && Size(r, 1) == Size(g, 1)
  {
    if !Dead(Slots(g, p)[i]) then
      SizeCoversExisting(g, p, i);
      SummonTrigger(c, g, p, q, pos, i)
    else
      ExtendsReflexive(g);
      g
  }

  /** The loop of `summon_many`: insert at `pos` and run the summon triggers, `n` times or
      until the board is full. */
  function InsertLoop(c: Tables, g: BattleState, m: Minion, p: Player, pos: nat, n: int, i: int): (r: BattleState)
    requires Exists(m) && pos <= Size(g, p)
    ensures Extends(g, r) && r.rng == g.rng
    decreases n - i
  {
    if i < n && !Full(g, p) then
      FullIsSize(g, p);
      var g1 := InsertStep(c, g, m, p, pos);
      var r := InsertLoop(c, g1, m, p, pos, n, i + 1);
      ExtendsTrans(g, g1, r);
      r
    else
      FullIsSize(g, p);
      ExtendsReflexive(g);
      g
  }

  /** One round of that loop: the insert, then the summon triggers of the board. */
  lemma InsertLoopStep(c: Tables, g: BattleState, m: Minion, p: Player, pos: nat, n: int, i: int)
    requires Exists(m) && pos <= Size(g, p) && i < n && Size(g, p) < BoardSize
    ensures var g1 := InsertStep(c, g, m, p, pos);
      pos <= Size(g1, p) && InsertLoop(c, g, m, p, pos, n, i) == InsertLoop(c, g1, m, p, pos, n, i + 1)
  {
    hide InsertStep;
    FullIsSize(g, p);
    assert !Full(g, p);
  }

  /** The loop ends once `n` minions were inserted or the board is full. */
  lemma InsertLoopDone(c: Tables, g: BattleState, m: Minion, p: Player, pos: nat, n: int, i: int)
    requires Exists(m) && pos <= Size(g, p) && !(i < n && !Full(g, p))
    ensures InsertLoop(c, g, m, p, pos, n, i) == g
  {
  }

  function InsertStep(c: Tables, g: BattleState, m: Minion, p: Player, pos: nat): (r: BattleState)
    requires Exists(m) && pos <= Size(g, p) < BoardSize
    ensures Extends(g, r) && r.rng == g.rng && Size(r, p) == Size(g, p) + 1
  {
    var g1 := InsertAt(g, p, pos, m);
    var r := SummonTriggers(c, g1, p, p, pos, 0);
    ExtendsTrans(g, g1, r);
    r
  }

  lemma AuraShapeKinds(c: Tables, s: seq<Minion>, t: seq<Minion>)
    requires SameAuraShape(c, s, t)
    ensures SameKinds(s, t)
  {
    forall i | 0 <= i < |s| ensures s[i].kind == t[i].kind {
      assert Shapes(c, s)[i] == Shapes(c, t)[i];
    }
  }

  /** `board[p].recompute_auras()`, without an enemy board. */
  function Recompute(c: Tables, g: BattleState, p: Player): (r: BattleState)
    ensures Extends(g, r) && r.rng == g.rng && Size(r, p) == Size(g, p)
    ensures SideOf(r, p) == SideOf(g, p).(slots := WithAuras(c, Slots(g, p), 0))
    ensures SideOf(r, 1 - p) == SideOf(g, 1 - p)
  {
    var s := Slots(g, p);
    WithAurasKeepsPermanentState(c, s, 0);
    AuraShapeKinds(c, s, WithAuras(c, s, 0));
    WithKinds(g, p, WithAuras(c, s, 0))
  }

  /** `summon_many(count, m, p, pos)`. */
  function SummonMany(c: Tables, g: BattleState, count: int, m: Minion, p: Player, pos: nat): (r: BattleState)
    requires Exists(m) && pos <= Size(g, p)
    ensures Extends(g, r) && r.rng == g.rng
  {
    if count == 0 then g
    else
      var g1 := InsertLoop(c, g, m, p, pos, count * ExtraSummons(g, p), 0);
      var r := Recompute(c, g1, p);
      ExtendsTrans(g, g1, r);
      r
  }

  /** `summon(m, p, pos)`. */
  function Summon(c: Tables, g: BattleState, m: Minion, p: Player, pos: nat): (r: BattleState)
    requires Exists(m) && pos <= Size(g, p)
    ensures Extends(g, r) && r.rng == g.rng
  {
    SummonMany(c, g, 1, m, p, pos)
  }

  /** The loop of `summon_for_opponent`: append to the enemy board, running the summoner's
      triggers on the new enemy minion. */
  function AppendLoop(c: Tables, g: BattleState, m: Minion, p: Player, count: int, i: int): (r: BattleState)
    requires Exists(m)
    ensures Extends(g, r) && r.rng == g.rng
    decreases count - i
  {
    if i < count && !Full(g, 1 - p) then
      FullIsSize(g, 1 - p);
      var g1 := AppendStep(c, g, m, p);
      var r := AppendLoop(c, g1, m, p, count, i + 1);
      ExtendsTrans(g, g1, r);
      r
    else
      FullIsSize(g, 1 - p);
      ExtendsReflexive(g);
      g
  }

  /** One round of that loop: the append, then the summoner's triggers. */
  lemma AppendLoopStep(c: Tables, g: BattleState, m: Minion, p: Player, count: int, i: int)
    requires Exists(m) && i < count && Size(g, 1 - p) < BoardSize
    ensures AppendLoop(c, g, m, p, count, i) == AppendLoop(c, AppendStep(c, g, m, p), m, p, count, i + 1)
  {
    hide AppendStep;
    FullIsSize(g, 1 - p);
    assert !Full(g, 1 - p);
  }

  /** The loop ends once `count` minions were appended or the enemy board is full. */
  lemma AppendLoopDone(c: Tables, g: BattleState, m: Minion, p: Player, count: int, i: int)
    requires Exists(m) && !(i < count && !Full(g, 1 - p))
    ensures AppendLoop(c, g, m, p, count, i) == g
  {
  }

  function AppendStep(c: Tables, g: BattleState, m: Minion, p: Player): (r: BattleState)
    requires Exists(m) && Size(g, 1 - p) < BoardSize
    ensures Extends(g, r) && r.rng == g.rng && Size(r, 1 - p) == Size(g, 1 - p) + 1
  {
    var pos := Size(g, 1 - p);
    var g1 := AppendAt(g, 1 - p, m);
    var r := SummonTriggers(c, g1, p, 1 - p, pos, 0);
    ExtendsTrans(g, g1, r);
    r
  }

  /** `summon_for_opponent(m, p)`: the summoner's Khadgar decides the count. */
  function SummonForOpponent(c: Tables, g: BattleState, m: Minion, p: Player): (r: BattleState)
    requires Exists(m)
    ensures Extends(g, r) && r.rng == g.rng
  {
    var g1 := AppendLoop(c, g, m, p, ExtraSummons(g, p), 0);
    var r := Recompute(c, g1, 1 - p);
    ExtendsTrans(g, g1, r);
    r
  }

  // ---------------------------------------------------------------------------
  // Damage

  /** `on_break_divine_shield(p)`: every living friend hears of it (Bolvar Fireblood). */
  function BreakShield(g: BattleState, p: Player): (r: BattleState)
    ensures Extends(g, r) && r.rng == g.rng
  {
    MapSlots(g, p, OnBreakFriendlyDivineShield, true)
  }

  /** `on_damaged(m, p, pos)`: Imp Gang Boss and Security Rover summon to their right. */
  function OnDamaged(c: Tables, g: BattleState, p: Player, pos: nat): (r: BattleState)
    requires pos < Size(g, p)
    ensures Extends(g, r) && r.rng == g.rng
  {
    var m := Slots(g, p)[pos];
    match DamagedSummon(m)
    case Some(t) =>
      assert t != MinionType.None;
      Summon(c, g, Make(c, t, m.golden), p, pos + 1)
    case None => g
  }

  /** The minion after `amount` damage without divine shield: a poisonous hit that leaves it
      alive sets its health to zero. */
  function Hurt(m: Minion, amount: int, poison: bool): Minion {
    var h := m.health - amount;
    m.(health := if h > 0 && poison then 0 else h)
  }

  /** `damage(p, pos, amount, poison)`: a divine shield absorbs the hit and is broken, otherwise
      the health drops and the damaged-triggers run. Deaths are left for `check_for_deaths`. */
  function Damage(c: Tables, g: BattleState, p: Player, pos: nat, amount: int, poison: bool): (r: BattleState)
    requires pos < Size(g, p)
    ensures Extends(g, r) && r.rng == g.rng
  {
    var m := Slots(g, p)[pos];
    if amount <= 0 then g
    else if m.divineShield then
      var g1 := WithSlot(g, p, pos, m.(divineShield := false));
      var r := BreakShield(g1, p);
      ExtendsTrans(g, g1, r);
      r
    else
      var g1 := WithSlot(g, p, pos, Hurt(m, amount, poison));
      var r := OnDamaged(c, g1, p, pos);
      ExtendsTrans(g, g1, r);
      r
  }

  /** The generator after `random_living_minion`: it draws only when some minion lives. */
  function LivingDrawn(g: BattleState, p: Player): State {
    if Count(Live(Slots(g, p)), NotDead) == 0 then g.rng else Step(g.rng)
  }

  /** `damage_random_minion(p, amount)`. */
  function DamageRandomMinion(c: Tables, g: BattleState, p: Player, amount: int): (r: BattleState)
    ensures Extends(g, r)
  {
    var t := LivingTarget(Live(Slots(g, p)), g.rng);
    LivingTargetFacts(Live(Slots(g, p)), g.rng);
    var g1 := g.(rng := LivingDrawn(g, p));
    if t == -1 then g1 else Damage(c, g1, p, t, amount, false)
  }

  /** `damage_all(p, amount)` from slot `i` on: `for_each_with_pos` re-reads the board, so a
      minion summoned to the right of a damaged one is damaged too. */
  function DamageAll(c: Tables, g: BattleState, p: Player, amount: int, i: nat): (r: BattleState)
    ensures Extends(g, r) && r.rng == g.rng
    decreases BoardSize - i
  {
    if i < BoardSize && Exists(Slots(g, p)[i]) then
      var g1 := DamageIfAlive(c, g, p, amount, i);
      var r := DamageAll(c, g1, p, amount, i + 1);
      ExtendsTrans(g, g1, r);
      r
    else
      ExtendsReflexive(g);
      g
  }

  /** One slot of that loop: a living minion there takes the damage, a dead one is skipped. */
  function DamageIfAlive(c: Tables, g: BattleState, p: Player, amount: int, i: nat): (r: BattleState)
    requires i < BoardSize
    ensures Extends(g, r) && r.rng == g.rng
    ensures Dead(Slots(g, p)[i]) || !Exists(Slots(g, p)[i]) ==> r == g
  {
    if Exists(Slots(g, p)[i]) && !Dead(Slots(g, p)[i]) then
      Damage(c, g, p, i, amount, false)
    else
      ExtendsReflexive(g);
      g
  }

  /** One round of `damage_all`'s loop, and its end. */
  lemma DamageAllStep(c: Tables, g: BattleState, p: Player, amount: int, i: nat)
    ensures DamageAll(c, g, p, amount, i)
         == if i < BoardSize && Exists(Slots(g, p)[i]) then DamageAll(c, DamageIfAlive(c, g, p, amount, i), p, amount, i + 1)
            else g
  {
    hide DamageIfAlive;
  }

  /** The battle with its generator moved on to `st`. */
  function Reseeded(g: BattleState, st: State): (r: BattleState)
    ensures Extends(g, r) && r == g.(rng := st)
  {
    GrowsReflexive(g.side0);
    GrowsReflexive(g.side1);
    g.(rng := st)
  }

  /** A state that only grows keeps every position that was within a board within it. */
  lemma ExtendsSize(g: BattleState, r: BattleState, p: Player)
    requires Extends(g, r)
    ensures Size(g, p) <= Size(r, p)
  {
  }

  // ---------------------------------------------------------------------------
  // Deathrattles

  /** `give_random_minion_divine_shield` and `buff_random_minion` on board `p`: one drawn living
      minion is updated by `f`. */
  function UpdateRandomLiving(g: BattleState, p: Player, f: Minion -> Minion): (r: BattleState)
    requires forall m :: f(m).kind == m.kind
    ensures Extends(g, r) && r.rng == LivingDrawn(g, p) && SideOf(r, 1 - p) == SideOf(g, 1 - p)
    ensures var t := LivingTarget(Live(Slots(g, p)), g.rng);
      Slots(r, p) == if t == -1 then Slots(g, p) else Slots(g, p)[t := f(Slots(g, p)[t])]
  {
    var t := LivingTarget(Live(Slots(g, p)), g.rng);
    LivingTargetFacts(Live(Slots(g, p)), g.rng);
    var g1 := Reseeded(g, LivingDrawn(g, p));
    if t == -1 then g1
    else
      var r := WithSlot(g1, p, t, f(Slots(g1, p)[t]));
      ExtendsTrans(g, g1, r);
      r
  }

  /** `random_one_cost_minion` and its siblings: a drawn entry of the pool. */
  function Pick(c: Tables, pool: Pool, st: State): (t: MinionType)
    ensures t in PoolList(c, pool) && t != MinionType.None
  {
    var list := PoolList(c, pool);
    list[Draw(st, |list|)]
  }

  /** The random actions the golden deathrattles repeat. */
  datatype Action = ShieldFriend | BuffFriend(attack: int, health: int) | DamageEnemy(amount: int) | SummonFrom(pool: Pool)

  function Act(c: Tables, g: BattleState, p: Player, a: Action, pos: nat): (r: BattleState)
    requires pos <= Size(g, p)
    ensures Extends(g, r)
  {
    match a
    case ShieldFriend => UpdateRandomLiving(g, p, Shielded)
    case BuffFriend(at, h) => UpdateRandomLiving(g, p, BuffBy(at, h))
    case DamageEnemy(n) => DamageRandomMinion(c, g, 1 - p, n)
    case SummonFrom(pool) =>
      var k := Pick(c, pool, g.rng);
      Summon(c, g.(rng := Step(g.rng)), Make(c, k, false), p, pos)
  }

  /** `TWICE_IF_GOLDEN()` and the other counted loops of `do_deathrattle`. */
  function Repeat(c: Tables, g: BattleState, p: Player, a: Action, pos: nat, n: nat): (r: BattleState)
    requires pos <= Size(g, p)
    ensures Extends(g, r)
    decreases n
  {
    if n == 0 then g
    else
      var g1 := Act(c, g, p, a, pos);
      ExtendsSize(g, g1, p);
      var r := Repeat(c, g1, p, a, pos, n - 1);
      ExtendsTrans(g, g1, r);
      r
  }

  /** Kangor's Apprentice: fresh copies of the recorded mechs, in death order, up to `limit`,
      stopping at the first empty record. */
  function DeadMechs(c: Tables, g: BattleState, p: Player, pos: nat, limit: nat, i: nat): (r: BattleState)
    requires pos <= Size(g, p)
    ensures Extends(g, r) && r.rng == g.rng
    decreases limit - i
  {
    var mechs := SideOf(g, p).mechs;
    if i < limit && i < MaxMechsThatDied && Exists(mechs[i]) then
      var g1 := Summon(c, g, NewCopy(c, mechs[i]), p, pos);
      ExtendsSize(g, g1, p);
      var r := DeadMechs(c, g1, p, pos, limit, i + 1);
      ExtendsTrans(g, g1, r);
      r
    else
      g
  }

  /** `do_base_deathrattle(dead, p, pos)`: the dead minion's own deathrattle. */
  function BaseDeathrattleEffect(c: Tables, g: BattleState, p: Player, dead: Minion, pos: nat): (r: BattleState)
    requires pos <= Size(g, p)
    ensures Extends(g, r)
  {
    match BaseDeathrattle(dead)
    case NoDeathrattle => g
    case SummonTokens(k, n) => SummonMany(c, g, n, Make(c, k, dead.golden), p, pos)
    case ShieldRandomFriend(t) => Repeat(c, g, p, ShieldFriend, pos, t)
    case DamageRandomEnemies(a, t) => Repeat(c, g, p, DamageEnemy(a), pos, t)
    case SummonRandom(pool, t) => Repeat(c, g, p, SummonFrom(pool), pos, t)
    case BuffFriends(a, h) => MapSlots(g, p, BuffBy(a, h), true)
    case BuffFriendsOfTribe(a, h, tr) => MapSlots(g, p, BuffTribe(c, tr, a, h), true)
    case BuffRandomFriend(a, h) => Act(c, g, p, BuffFriend(a, h), pos)
    case OpponentToken(k) => SummonForOpponent(c, g, Make(c, k, false), p)
    case SummonDeadMechs(l) => DeadMechs(c, g, p, pos, l, 0)
  }

  /** One round of `do_deathrattle`: the base deathrattle, the extra deathrattles the minion
      collected (scouts, microbots, golden microbots, plants) and reborn. */
  function OneDeathrattle(c: Tables, g: BattleState, p: Player, dead: Minion, pos: nat): (r: BattleState)
    requires pos <= Size(g, p) && Exists(dead)
    ensures Extends(g, r)
  {
    var g1 := BaseDeathrattleEffect(c, g, p, dead, pos);
    ExtendsSize(g, g1, p);
    var g2 := SummonMany(c, g1, dead.deathrattleMurlocs, Make(c, MurlocScout, false), p, pos);
    ExtendsSize(g1, g2, p);
    var g3 := SummonMany(c, g2, dead.deathrattleMicrobots, Make(c, Microbot, false), p, pos);
    ExtendsSize(g2, g3, p);
    var g4 := SummonMany(c, g3, dead.deathrattleGoldenMicrobots, Make(c, Microbot, true), p, pos);
    ExtendsSize(g3, g4, p);
    var g5 := SummonMany(c, g4, dead.deathrattlePlants, Make(c, Plant, false), p, pos);
    ExtendsSize(g4, g5, p);
    var r := if dead.reborn then Summon(c, g5, RebornCopy(c, dead), p, pos) else g5;
    ExtendsTrans(g, g1, g2);
    ExtendsTrans(g, g2, g3);
    ExtendsTrans(g, g3, g4);
    ExtendsTrans(g, g4, g5);
    ExtendsTrans(g, g5, r);
    r
  }

  /** `do_deathrattle`: the rounds are counted once, on entry (Baron Rivendare). */
  function DeathrattleRounds(c: Tables, g: BattleState, p: Player, dead: Minion, pos: nat, count: int, i: int): (r: BattleState)
    requires pos <= Size(g, p) && Exists(dead)
    ensures Extends(g, r)
    decreases count - i
  {
    if i < count then
      var g1 := OneDeathrattle(c, g, p, dead, pos);
      ExtendsSize(g, g1, p);
      var r := DeathrattleRounds(c, g1, p, dead, pos, count, i + 1);
      ExtendsTrans(g, g1, r);
      r
    else
      g
  }

  /** `on_friendly_death` for the living friends from slot `i` on: Hyenas and Junkbots grow,
      Soul Jugglers hit a random enemy. */
  function FriendlyDeaths(c: Tables, g: BattleState, p: Player, dead: Minion, i: nat): (r: BattleState)
    ensures Extends(g, r)
    decreases BoardSize - i
  {
    if i < BoardSize && Exists(Slots(g, p)[i]) then
      var m := Slots(g, p)[i];
      var g1 :=
        if Dead(m) then g
        else match OnFriendlyDeath(c, m, dead)
          case NoReaction => g
          case Grow(a, h) => WithSlot(g, p, i, Buff(m, a, h))
          case DamageRandomEnemy(n) => DamageRandomMinion(c, g, 1 - p, n);
      var r := FriendlyDeaths(c, g1, p, dead, i + 1);
      ExtendsTrans(g, g1, r);
      r
    else
      g
  }

  /** The record of dead mechs for Kangor's Apprentice: appended while there is room. */
  function RecordMech(c: Tables, g: BattleState, p: Player, dead: Minion): (r: BattleState)
    ensures Extends(g, r) && r.rng == g.rng
    ensures Slots(r, 0) == Slots(g, 0) && Slots(r, 1) == Slots(g, 1)
  {
    var s := SideOf(g, p);
    if MinionHasTribe(c, dead, Tribe.Mech) && !Exists(s.mechs[MaxMechsThatDied - 1]) then
      WithSide(g, p, s.(mechs := Appended(s.mechs, dead)))
    else
      g
  }

  /** `on_death(dead, p, pos)`. */
  function OnDeath(c: Tables, g: BattleState, p: Player, dead: Minion, pos: nat): (r: BattleState)
    requires pos <= Size(g, p) && Exists(dead)
    ensures Extends(g, r)
  {
    var g1 := DeathrattleRounds(c, g, p, dead, pos, ExtraDeathrattles(g, p), 0);
    var g2 := FriendlyDeaths(c, g1, p, dead, 0);
    var r := RecordMech(c, g2, p, dead);
    ExtendsTrans(g, g1, g2);
    ExtendsTrans(g, g2, r);
    r
  }

  /** What a sweep hands to the death handlers: minions that existed, at positions within the
      compacted board. */
  ghost predicate DeathsFit(g: BattleState, p: Player, dead: seq<Minion>, positions: seq<int>) {
    && |positions| == |dead|
    && forall k :: 0 <= k < |dead| ==> Exists(dead[k]) && 0 <= positions[k] <= Size(g, p)
  }

  lemma DeathsFitGrows(g: BattleState, r: BattleState, p: Player, dead: seq<Minion>, positions: seq<int>)
    requires Extends(g, r) && DeathsFit(g, p, dead, positions)
    ensures DeathsFit(r, p, dead, positions)
  {
    ExtendsSize(g, r, p);
  }

  /** The inner loop of the second half of `check_for_deaths`: `on_death` for each dead
      minion of board `p`, from the `i`-th on. */
  function DeathsFrom(c: Tables, g: BattleState, p: Player, dead: seq<Minion>, positions: seq<int>, i: nat): (r: BattleState)
    requires DeathsFit(g, p, dead, positions)
    ensures Extends(g, r)
    decreases |dead| - i
  {
    if i < |dead| then
      var g1 := OnDeath(c, g, p, dead[i], positions[i]);
      DeathsFitGrows(g, g1, p, dead, positions);
      var r := DeathsFrom(c, g1, p, dead, positions, i + 1);
      ExtendsTrans(g, g1, r);
      r
    else
      ExtendsReflexive(g);
      g
  }

  /** One round of that loop. */
  lemma DeathsStep(c: Tables, g: BattleState, p: Player, dead: seq<Minion>, positions: seq<int>, i: nat)
    requires DeathsFit(g, p, dead, positions) && i < |dead|
    ensures i < |positions| && 0 <= positions[i] <= Size(g, p) && Exists(dead[i])
    ensures var g1 := OnDeath(c, g, p, dead[i], positions[i]);
      && DeathsFit(g1, p, dead, positions)
      && DeathsFrom(c, g, p, dead, positions, i) == DeathsFrom(c, g1, p, dead, positions, i + 1)
  {
    hide OnDeath;
    DeathsFitGrows(g, OnDeath(c, g, p, dead[i], positions[i]), p, dead, positions);
  }

  // ---------------------------------------------------------------------------
  // check_for_deaths

  /** One board after the sweep. */
  function SweptSide(s: BoardSide): (r: Side)
  {
    var w := SweepBoard(s.slots, s.next, s.track);
    s.(slots := w.slots, next := w.next, track := w.track)
  }

  /** The sweep keeps the invariant and leaves only living minions; what it takes off the board
      fits the death handlers. */
  lemma SweptSideFacts(s: BoardSide)
    ensures SideInv(SweptSide(s)) && Live(SweptSide(s).slots) == Survivors(s.slots)
    ensures SideAlive(SweptSide(s))
    ensures var w := SweepBoard(s.slots, s.next, s.track);
      && |w.positions| == |w.dead|
      && forall k :: 0 <= k < |w.dead| ==> Exists(w.dead[k]) && Dead(w.dead[k])
                                           && 0 <= w.positions[k] <= SizeOf(SweptSide(s).slots)
  {
    SweepBoardClosed(s.slots, s.next, s.track);
    CompactedLive(s.slots);
    RenumberedFollows(s.slots, s.track[0]);
    CasualtiesExist(s.slots);
    DeadPositionsBounded(Live(s.slots));
    assert |Live(s.slots)| == SizeOf(s.slots);
    var r := SweptSide(s);
    assert r.track[0] == Renumbered(s.slots, s.track[0]);
    SurvivorsExist(s.slots);
    forall i | 0 <= i < SizeOf(r.slots) ensures !Dead(r.slots[i]) {
      assert r.slots[i] == Live(r.slots)[i];
    }
  }

  /** Every minion of the board's live prefix is alive. */
  ghost predicate SideAlive(s: Side) {
    forall i :: 0 <= i < SizeOf(s.slots) ==> !Dead(s.slots[i])
  }

  function DeadOf(s: BoardSide): seq<Minion>
  {
    SweepBoard(s.slots, s.next, s.track).dead
  }

  function PositionsOf(s: BoardSide): seq<int>
  {
    SweepBoard(s.slots, s.next, s.track).positions
  }

  /** Every minion left on both boards is alive. */
  ghost predicate NoDead(g: BattleState) {
    SideAlive(g.side0) && SideAlive(g.side1)
  }

  /** The first half of a pass: both boards swept. */
  function SweepBoth(g: BattleState): (r: BattleState)
    ensures NoDead(r) && r.turn == g.turn && r.rng == g.rng
  {
    SweptSideFacts(g.side0);
    SweptSideFacts(g.side1);
    g.(side0 := SweptSide(g.side0), side1 := SweptSide(g.side1))
  }

  /** What the sweep took off board `p` fits the death handlers of any later state. */
  lemma DeathsFitAfterSweep(g: BattleState, r: BattleState, p: Player)
    requires Extends(SweepBoth(g), r)
    ensures DeathsFit(r, p, DeadOf(SideOf(g, p)), PositionsOf(SideOf(g, p)))
  {
    SweptSideFacts(g.side0);
    SweptSideFacts(g.side1);
    ExtendsSize(SweepBoth(g), r, p);
  }

  /** The second half of a pass: for each player, the auras are recomputed and the deaths of
      that board handled in order. */
  function RunDeaths(c: Tables, g: BattleState, s: BattleState): (r: BattleState)
    requires s == SweepBoth(g)
    ensures r.turn == g.turn
  {
    var g1 := Recompute(c, s, 0);
    DeathsFitAfterSweep(g, g1, 0);
    var g2 := DeathsFrom(c, g1, 0, DeadOf(g.side0), PositionsOf(g.side0), 0);
    var g3 := Recompute(c, g2, 1);
    ExtendsTrans(s, g1, g2);
    ExtendsTrans(s, g2, g3);
    DeathsFitAfterSweep(g, g3, 1);
    DeathsFrom(c, g3, 1, DeadOf(g.side1), PositionsOf(g.side1), 0)
  }

  /** `check_for_deaths()`: sweep, and while a pass found deaths, run them and sweep again.
      `fuel` bounds the number of passes; when it runs out the last sweep stands. */
  function CheckForDeaths(c: Tables, g: BattleState, fuel: nat): (r: BattleState)
    ensures NoDead(r) && r.turn == g.turn
    decreases fuel
  {
    var s := SweepBoth(g);
    if (DeadOf(g.side0) == [] && DeadOf(g.side1) == []) || fuel == 0 then s
    else CheckForDeaths(c, RunDeaths(c, g, s), fuel - 1)
  }

  /** One pass of `check_for_deaths()`. */
  lemma CheckForDeathsStep(c: Tables, g: BattleState, fuel: nat)
    ensures var s := SweepBoth(g);
      CheckForDeaths(c, g, fuel)
      == if (DeadOf(g.side0) == [] && DeadOf(g.side1) == []) || fuel == 0 then s
         else CheckForDeaths(c, RunDeaths(c, g, s), fuel - 1)
  {
    hide SweepBoth;
    hide RunDeaths;
  }

  // ---------------------------------------------------------------------------
  // Attacks

  /** The target of the attacker in slot `from`: Zapp Slywick picks a lowest-attack minion,
      everyone else a taunt if there is one. -1 when the enemy board offers nothing. */
  function TargetOf(g: BattleState, p: Player, from: nat): int
    requires from < Size(g, p)
  {
    var enemy := Live(Slots(g, 1 - p));
    if Slots(g, p)[from].kind == ZappSlywick then LowestTarget(enemy, g.rng) else AttackTarget(enemy, g.rng)
  }

  /** The target is a live enemy slot, or -1; an empty enemy board gives -1, and a minion
      other than Zapp hits a taunt whenever there is one. */
  lemma TargetFacts(g: BattleState, p: Player, from: nat)
    requires from < Size(g, p)
    ensures -1 <= TargetOf(g, p, from) < Size(g, 1 - p)
    ensures Size(g, 1 - p) == 0 ==> TargetOf(g, p, from) == -1
    ensures var t := TargetOf(g, p, from); var enemy := Live(Slots(g, 1 - p));
      Slots(g, p)[from].kind != ZappSlywick && t >= 0 && Count(enemy, Taunted) > 0 ==> enemy[t].taunt
  {
    var enemy := Live(Slots(g, 1 - p));
    AttackTargetFacts(enemy, g.rng);
    if Size(g, 1 - p) == 0 {
      assert enemy == [];
    }
  }

  /** The state after the hits of one attack, with the number of kills and of overkills. */
  datatype Tally = Tally(state: BattleState, kill: nat, overkill: nat)

  /** The loop over the tracked target positions `i` to `n - 1` of the enemy board: each one
      that still names a minion takes the attacker's damage, and is counted when it dies. */
  function Hits(c: Tables, t: Tally, p: Player, from: nat, n: nat, i: nat): (r: Tally)
    requires from < Size(t.state, p) && n <= NumExtraPos && i <= n
    ensures Extends(t.state, r.state) && t.kill <= r.kill <= t.kill + (n - i) && t.overkill <= r.overkill
    decreases n - i
  {
    if i < n then
      var t1 := HitStep(c, t, p, from, i);
      var r := Hits(c, t1, p, from, n, i + 1);
      ExtendsTrans(t.state, t1.state, r.state);
      r
    else
      ExtendsReflexive(t.state);
      t
  }

  /** One round of that loop, added to the tally so far. */
  function HitStep(c: Tables, t: Tally, p: Player, from: nat, i: nat): (r: Tally)
    requires from < Size(t.state, p) && i < NumExtraPos
    ensures Extends(t.state, r.state) && Size(r.state, p) >= Size(t.state, p)
    ensures t.kill <= r.kill <= t.kill + 1 && t.overkill <= r.overkill
  {
    var h := HitAt(c, t.state, p, from, i);
    Tally(h.state, t.kill + h.kill, t.overkill + h.overkill)
  }

  /** One step of that loop: when the enemy's tracked position `i` names a minion, the attacker
      damages it; the tally is 1 when it died (and 1 overkill when its health went below 0). */
  function HitAt(c: Tables, g: BattleState, p: Player, from: nat, i: nat): (r: Tally)
    requires from < Size(g, p) && i < NumExtraPos
    ensures Extends(g, r.state) && Size(r.state, p) >= Size(g, p) && r.kill <= 1 && r.overkill <= r.kill
    ensures !(0 <= SideOf(g, 1 - p).track[i] < Size(g, 1 - p)) ==> r == Tally(g, 0, 0)
  {
    var e := SideOf(g, 1 - p);
    var pos := e.track[i];
    if 0 <= pos < BoardSize && Exists(e.slots[pos]) then
      var a := Slots(g, p)[from];
      var g1 := Damage(c, g, 1 - p, pos, a.attack, a.poison);
      var after := SideOf(g1, 1 - p);
      var pos1 := after.track[i];
      assert 0 <= pos1 < SizeOf(after.slots);
      var dead := Dead(after.slots[pos1]);
      Tally(g1, if dead then 1 else 0, if dead && after.slots[pos1].health < 0 then 1 else 0)
    else
      Tally(g, 0, 0)
  }

  /** `on_attack_and_kill(attacker, p, from, overkill)`. */
  function AttackAndKill(c: Tables, g: BattleState, p: Player, from: nat, overkill: bool): (r: BattleState)
    requires from < Size(g, p)
    ensures Extends(g, r)
  {
    var m := Slots(g, p)[from];
    match OnAttackAndKill(m, overkill)
    case NoKillEffect => g
    case SummonRunt => Summon(c, g, Make(c, IronhideRunt, m.golden), p, from + 1)
    case GrowOnKill(a, h) => WithSlot(g, p, from, Buff(m, a, h))
  }

  /** The enemy's tracked positions for an attack on `t`: the target, and for cleave its two
      neighbours as well. */
  function AimedAt(track: seq<int>, t: int, cleave: bool): (r: seq<int>)
    requires |track| == NumExtraPos
    ensures |r| == NumExtraPos && r[0] == t
    ensures cleave ==> r[1] == t - 1 && r[2] == t + 1
    ensures !cleave ==> r[1..] == track[1..]
  {
    if cleave then [t, t - 1, t + 1] else track[0 := t]
  }

  /** `single_attack_by(p, from)`. The source reads the defender's snapshot at the target
      index before checking it; on an empty enemy board that index is -1 (see
      `DefenderIndexOnEmptyBoard`). Here no target means no attack. */
  function SingleAttackBy(c: Tables, g: BattleState, p: Player, from: nat, fuel: nat): (r: BattleState)
    requires from < Size(g, p)
    ensures r.turn == g.turn
    ensures Size(g, 1 - p) == 0 ==> r == g
  {
    var cleave := Cleave(c, Slots(g, p)[from]);
    var t := TargetOf(g, p, from);
    TargetFacts(g, p, from);
    if t == -1 then g
    else
      var snapshot := Slots(g, 1 - p)[t];
      CheckForDeaths(c, Strike(c, Aim(g, p, t, cleave), p, from, cleave, snapshot), fuel)
  }

  /** The drawn target is tracked on the enemy board (with its neighbours for cleave). */
  function Aim(g: BattleState, p: Player, t: nat, cleave: bool): (r: BattleState)
    requires t < Size(g, 1 - p)
    ensures r.turn == g.turn && r.rng == Step(g.rng)
    ensures Slots(r, 0) == Slots(g, 0) && Slots(r, 1) == Slots(g, 1)
    ensures SideOf(r, 1 - p).track == AimedAt(SideOf(g, 1 - p).track, t, cleave)
  {
    var e := SideOf(g, 1 - p);
    WithSide(g, 1 - p, e.(track := AimedAt(e.track, t, cleave))).(rng := Step(g.rng))
  }

  /** The attack itself, before the deaths are handled: the hits on the tracked targets, the
      defender's snapshot striking back, the kill triggers and the after-attack triggers. */
  function Strike(c: Tables, g: BattleState, p: Player, from: nat, cleave: bool, snapshot: Minion): (r: BattleState)
    requires from < Size(g, p)
    ensures Extends(g, r)
  {
    var tally := Hits(c, Tally(g, 0, 0), p, from, if cleave then 3 else 1, 0);
    ExtendsSize(g, tally.state, p);
    var r := StruckBack(c, tally.state, p, from, snapshot, tally.kill, tally.overkill);
    ExtendsTrans(g, tally.state, r);
    r
  }

  /** After the hits: the defender's snapshot strikes the attacker, then the kill triggers (when
      a target died) and the after-attack triggers of the attacker's board. */
  function StruckBack(c: Tables, g: BattleState, p: Player, from: nat, snapshot: Minion, kill: nat, overkill: nat): (r: BattleState)
    requires from < Size(g, p)
    ensures Extends(g, r)
  {
    var g1 := Damage(c, g, p, from, snapshot.attack, snapshot.poison);
    ExtendsSize(g, g1, p);
    var r := AfterAttack(c, g1, p, from, kill, overkill);
    ExtendsTrans(g, g1, r);
    r
  }

  function AfterAttack(c: Tables, g: BattleState, p: Player, from: nat, kill: nat, overkill: nat): (r: BattleState)
    requires from < Size(g, p)
    ensures Extends(g, r)
  {
    var g1 := if kill > 0 then AttackAndKill(c, g, p, from, overkill > 0) else g;
    var r := MapSlots(g1, p, OnAfterFriendlyAttack, true);
    ExtendsTrans(g, g1, r);
    r
  }

  /** The index the source reads the defender's snapshot from: the target, unchecked. */
  function DefenderIndex(g: BattleState, p: Player, from: nat): int
    requires from < Size(g, p)
  {
    TargetOf(g, p, from)
  }

  /** On an empty enemy board the source reads the defender from slot -1, outside the array;
      the model's attack leaves the battle as it is. */
  lemma DefenderIndexOnEmptyBoard(c: Tables, g: BattleState, p: Player, from: nat, fuel: nat)
    requires from < Size(g, p) && Size(g, 1 - p) == 0
    ensures DefenderIndex(g, p, from) == -1
    ensures SingleAttackBy(c, g, p, from, fuel) == g
  {
    TargetFacts(g, p, from);
  }

  /** `done()`: a board is empty (its first slot has no minion), or the turn is past 1. */
  predicate Done(g: BattleState)
  {
    !Exists(Slots(g, 0)[0]) || !Exists(Slots(g, 1)[0]) || g.turn >= 2
  }

  /** `started()`. */
  predicate Started(g: BattleState) {
    g.turn >= 0
  }

  /** The slot `attack_round` attacks from: the next attacker, or slot 0 when the next
      attacker is past the board or its slot is empty. */
  function AttackerSlot(s: BoardSide): (from: nat)
    requires SizeOf(s.slots) > 0
    ensures from < SizeOf(s.slots)
    ensures from == s.next || from == 0
    ensures s.next < SizeOf(s.slots) ==> from == s.next
  {
    if s.next >= BoardSize || !Exists(s.slots[s.next]) then 0 else s.next
  }

  /** Where a windfury attacker attacks from the second time, or -1 for no second attack.
      `asWritten` is the source's test, a tracked position above 0; the corrected test lets any
      surviving attacker (tracked position at least 0) attack again. */
  function SecondAttacker(windfury: bool, tracked: int, asWritten: bool): int {
    if windfury && (if asWritten then tracked > 0 else tracked >= 0) then tracked else -1
  }

  /** `attack_round()`, with the windfury test selected by `asWritten`. */
  function AttackRoundBy(c: Tables, g: BattleState, fuel: nat, asWritten: bool): (r: BattleState)
    requires !Done(g) && 0 <= g.turn <= 1
    ensures r.turn == 1 - g.turn
  {
    var p: Player := g.turn;
    var s := SideOf(g, p);
    var from := AttackerSlot(s);
    var g1 := WithSide(g, p, s.(next := from + 1, track := s.track[0 := from]));
    var g2 := SingleAttackBy(c, g1, p, from, fuel);
    SecondAttack(c, g2, p, s.slots[from].windfury, fuel, asWritten).(turn := 1 - p)
  }

  /** The windfury part of `attack_round`: the attacker attacks again from where it is tracked
      now, when the test selected by `asWritten` lets it. */
  function SecondAttack(c: Tables, g: BattleState, p: Player, windfury: bool, fuel: nat, asWritten: bool): (r: BattleState)
    ensures r.turn == g.turn
    ensures SecondAttacker(windfury, SideOf(g, p).track[0], asWritten) == -1 ==> r == g
  {
    var second := SecondAttacker(windfury, SideOf(g, p).track[0], asWritten);
    if second >= 0 then SingleAttackBy(c, g, p, second, fuel) else g
  }

  /** `attack_round()` with the corrected windfury test. */
  function AttackRound(c: Tables, g: BattleState, fuel: nat): (r: BattleState)
    requires !Done(g) && 0 <= g.turn <= 1
    ensures r.turn == 1 - g.turn
  {
    AttackRoundBy(c, g, fuel, false)
  }

  /** The corrected round, step by step: the attacker's slot is tracked, it attacks, and the
      second attack follows. */
  lemma AttackRoundSteps(c: Tables, g: BattleState, fuel: nat, g1: BattleState, g2: BattleState)
    requires !Done(g) && 0 <= g.turn <= 1
    requires var s := SideOf(g, g.turn); var from := AttackerSlot(s);
      && g1 == WithSide(g, g.turn, s.(next := from + 1, track := s.track[0 := from]))
      && from < Size(g1, g.turn)
      && g2 == SingleAttackBy(c, g1, g.turn, from, fuel)
    ensures var s := SideOf(g, g.turn);
      AttackRound(c, g, fuel) == SecondAttack(c, g2, g.turn, s.slots[AttackerSlot(s)].windfury, fuel, false).(turn := 1 - g.turn)
  {
    hide SingleAttackBy;
    hide SecondAttack;
  }

  /** `attack_round()` as written. */
  function AttackRoundAsWritten(c: Tables, g: BattleState, fuel: nat): (r: BattleState)
    requires !Done(g) && 0 <= g.turn <= 1
    ensures r.turn == 1 - g.turn
  {
    AttackRoundBy(c, g, fuel, true)
  }

  /** `run()`: attack rounds until the battle is done, at most `rounds` of them. */
  function Run(c: Tables, g: BattleState, rounds: nat, fuel: nat): (r: BattleState)
    requires 0 <= g.turn <= 1
    ensures 0 <= r.turn <= 1
    ensures Done(g) ==> r == g
    ensures Done(r) <==> Size(r, 0) == 0 || Size(r, 1) == 0
    decreases rounds
  {
    if Done(g) || rounds == 0 then g
    else Run(c, AttackRound(c, g, fuel), rounds - 1, fuel)
  }

  // ---------------------------------------------------------------------------
  // Hero powers and the start of the battle

  function WithMurlocDeathrattle(m: Minion): Minion { m.(deathrattleMurlocs := 1) }

  /** `do_hero_power(hp, p)`. */
  function HeroPowerEffect(c: Tables, g: BattleState, hp: HeroPower, p: Player): (r: BattleState)
    ensures Extends(g, r)
    ensures hp == HeroPower.None ==> r == g
  {
    match hp
    case None => g
    case Nefarian => DamageAll(c, g, 1 - p, 1, 0)
    case RagnarosTheFirelord =>
      var g1 := DamageRandomMinion(c, g, 1 - p, 8);
      var r := DamageRandomMinion(c, g1, 1 - p, 8);
      ExtendsTrans(g, g1, r);
      r
    case PatchesThePirate =>
      var g1 := DamageRandomMinion(c, g, 1 - p, 3);
      var r := DamageRandomMinion(c, g1, 1 - p, 3);
      ExtendsTrans(g, g1, r);
      r
    case TheLichKing =>
      var i := Size(g, p) - 1;
      if i >= 0 then WithSlot(g, p, i, Slots(g, p)[i].(reborn := true)) else g
    case Giantfin => MapSlots(g, p, WithMurlocDeathrattle, false)
    case ProfessorPutricide =>
      var m := Slots(g, p)[0];
      if Exists(m) then WithSlot(g, p, 0, m.(attack := m.attack + 10)) else g
  }

  /** One player's turn of `do_hero_powers()`: the power fires and is used up. */
  function UseHeroPower(c: Tables, g: BattleState, p: Player): (r: BattleState)
    ensures r.turn == g.turn
    ensures SideOf(r, p).heroPower == HeroPower.None
    ensures SideOf(r, 1 - p).heroPower == SideOf(g, 1 - p).heroPower
  {
    var g1 := HeroPowerEffect(c, g, SideOf(g, p).heroPower, p);
    ExtendsKeepsHeroPowers(g, g1);
    WithSide(g1, p, SideOf(g1, p).(heroPower := HeroPower.None))
  }

  /** `do_hero_powers()`: player 0's power, then player 1's. */
  function DoHeroPowers(c: Tables, g: BattleState): (r: BattleState)
    ensures r.turn == g.turn
    ensures SideOf(r, 0).heroPower == HeroPower.None && SideOf(r, 1).heroPower == HeroPower.None
  {
    UseHeroPower(c, UseHeroPower(c, g, 0), 1)
  }

  /** `start()`: a coin flip on the battle's generator decides who attacks first, then the hero
      powers fire. */
  function Start(c: Tables, g: BattleState): (r: BattleState)
    ensures 0 <= r.turn <= 1 && Started(r)
    ensures SideOf(r, 0).heroPower == HeroPower.None && SideOf(r, 1).heroPower == HeroPower.None
  {
    DoHeroPowers(c, g.(turn := Draw(g.rng, 2), rng := Step(g.rng)))
  }

  /** A side with no dead mechs recorded yet. */
  function NoMechs(s: BoardSide): (r: BoardSide)
    ensures r.slots == s.slots
    ensures forall k :: 0 <= k < MaxMechsThatDied ==> !Exists(r.mechs[k])
  {
    s.(mechs := seq(MaxMechsThatDied, _ => Empty()))
  }

  /** A fresh battle: the two boards with their auras computed, no dead mechs, turn -1. */
  function NewBattle(c: Tables, b0: BoardSide, b1: BoardSide, rng: State): (r: BattleState)
    ensures !Started(r) && Size(r, 0) == SizeOf(b0.slots) && Size(r, 1) == SizeOf(b1.slots)
    ensures forall k :: 0 <= k < MaxMechsThatDied ==> !Exists(SideOf(r, 0).mechs[k]) && !Exists(SideOf(r, 1).mechs[k])
  {
    var g := BattleState(NoMechs(b0), NoMechs(b1), -1, rng);
    var g1 := Recompute(c, g, 0);
    Recompute(c, g1, 1)
  }

  // ---------------------------------------------------------------------------
  // Score

  /** `score()`: the stars left on the winner's board, positive when player 0 wins, 0 when
      both boards still have stars. */
  function Score(c: Tables, g: BattleState): int {
    var s0 := StarsOf(c, Live(Slots(g, 0)));
    var s1 := StarsOf(c, Live(Slots(g, 1)));
    if s0 > 0 && s1 > 0 then 0 else s0 - s1
  }

  function Swapped(g: BattleState): BattleState {
    g.(side0 := g.side1, side1 := g.side0)
  }
}
