// The `Battle` class of src/battle.hpp and src/battle.cpp. Its fields are the two boards (with
// their dead mechs), the player to attack next and the generator. The members that loop in the
// source loop here too; each is proved to leave the battle in the state that the function of
// the same name in BattleRules computes from the old state.
module Battles {
  import opened Util
  import opened Tribes
  import opened MinionInfo
  import opened Minions
  import opened MinionArrays
  import opened Boards
  import opened Rng
  import opened Sweeps
  import opened BattleRules

  class Battle {
    const catalog: Tables
    var side0: BoardSide
    var side1: BoardSide
    var turn: int
    var rng: State

    function State(): (g: BattleState)
      reads this
    {
      BattleState(side0, side1, turn, rng)
    }

    /** `Battle(b0, b1)`: the auras of both boards are computed, nothing has started. */
    constructor (c: Tables, b0: BoardSide, b1: BoardSide, seed: State)
      ensures catalog == c && State() == NewBattle(c, b0, b1, seed)
    {
      catalog := c;
      var g := NewBattle(c, b0, b1, seed);
      side0, side1, turn, rng := g.side0, g.side1, g.turn, g.rng;
    }

    method Set(g: BattleState)
      modifies this
      ensures State() == g
    {
      side0, side1, turn, rng := g.side0, g.side1, g.turn, g.rng;
    }

    /** `run()`: attack rounds while the battle is not done, at most `maxRounds` of them. */
    method Run(maxRounds: nat, fuel: nat)
      requires 0 <= turn <= 1
      modifies this
      ensures State() == BattleRules.Run(catalog, old(State()), maxRounds, fuel)
    {
      hide BattleRules.AttackRound;
      var k := 0;
      while k < maxRounds && !Done(State())
        invariant 0 <= k <= maxRounds && 0 <= turn <= 1
        invariant BattleRules.Run(catalog, State(), maxRounds - k, fuel) == BattleRules.Run(catalog, old(State()), maxRounds, fuel)
        decreases maxRounds - k
      {
        AttackRound(fuel);
        k := k + 1;
      }
    }

    /** `start()`: the coin flip, then the hero powers. */
    method Start()
      modifies this
      ensures State() == BattleRules.Start(catalog, old(State()))
    {
      hide BattleRules.DoHeroPowers;
      hide UseHeroPower;
      hide HeroPowerEffect;
      hide Draw;
      hide Step;
      turn := Draw(rng, 2);
      rng := Step(rng);
      DoHeroPowers();
    }

    /** `do_hero_powers()`. */
    method DoHeroPowers()
      modifies this
      ensures State() == BattleRules.DoHeroPowers(catalog, old(State()))
    {
      hide HeroPowerEffect;
      ghost var g := State();
      var player := 0;
      while player < 2
        invariant 0 <= player <= 2
        invariant player == 0 ==> State() == g
        invariant player == 1 ==> State() == UseHeroPower(catalog, g, 0)
        invariant player == 2 ==> State() == BattleRules.DoHeroPowers(catalog, g)
      {
        Set(UseHeroPower(catalog, State(), player));
        player := player + 1;
      }
    }

    /** `attack_round()`, with the corrected windfury test. */
    method AttackRound(fuel: nat)
      requires !Done(State()) && 0 <= turn <= 1
      modifies this
      ensures State() == BattleRules.AttackRound(catalog, old(State()), fuel)
    {
      hide BattleRules.SingleAttackBy;
      hide BattleRules.SecondAttack;
      ghost var g := State();
      var p: Player := turn;
      var from, windfury := NextAttacker();
      ghost var g1 := State();
      SingleAttackBy(p, from, fuel);
      ghost var g2 := State();
      SecondAttackBy(p, windfury, fuel);
      AttackRoundSteps(catalog, g, fuel, g1, g2);
      turn := 1 - p;
    }

    /** The start of `attack_round()`: the next attacker falls back to slot 0 when it is past
        the board or its slot is empty, moves on by one, and the attacker's slot is tracked. */
    method NextAttacker() returns (from: nat, windfury: bool)
      requires !Done(State()) && 0 <= turn <= 1
      modifies this
      ensures turn == old(turn) && from < Size(State(), turn)
      ensures var s := SideOf(old(State()), turn);
        && from == AttackerSlot(s) && windfury == s.slots[from].windfury
        && State() == WithSide(old(State()), turn, s.(next := from + 1, track := s.track[0 := from]))
    {
      var p: Player := turn;
      var active := SideOf(State(), p);
      if active.next >= BoardSize || !Exists(active.slots[active.next]) {
        active := active.(next := 0);
      }
      from := active.next;
      windfury := active.slots[from].windfury;
      active := active.(next := from + 1, track := active.track[0 := from]);
      Set(WithSide(State(), p, active));
    }

    /** The windfury part of `attack_round()`, with the corrected test. */
    method SecondAttackBy(p: Player, windfury: bool, fuel: nat)
      modifies this
      ensures State() == SecondAttack(catalog, old(State()), p, windfury, fuel, false)
    {
      var tracked := SideOf(State(), p).track[0];
      if windfury && tracked >= 0 {
        SingleAttackBy(p, tracked, fuel);
      }
    }

    /** `single_attack_by(player, from)`: aim, the hits loop, the strike back, the triggers and
        the sweep for deaths. */
    method SingleAttackBy(p: Player, from: nat, fuel: nat)
      requires from < Size(State(), p)
      modifies this
      ensures State() == BattleRules.SingleAttackBy(catalog, old(State()), p, from, fuel)
    {
      var g := State();
      var cleave := Cleave(catalog, Slots(g, p)[from]);
      var target := TargetOf(g, p, from);
      TargetFacts(g, p, from);
      if target == -1 {
        return;
      }
      var snapshot := Slots(g, 1 - p)[target];
      Set(Aim(g, p, target, cleave));
      var tally := HitLoop(p, from, if cleave then 3 else 1);
      Set(StruckBack(catalog, State(), p, from, snapshot, tally.kill, tally.overkill));
      CheckForDeaths(fuel);
    }

    /** The loop over the tracked target positions of one attack. */
    method HitLoop(p: Player, from: nat, n: nat) returns (tally: Tally)
      requires from < Size(State(), p) && n <= NumExtraPos
      modifies this
      ensures from < Size(State(), p)
      ensures tally == Hits(catalog, Tally(old(State()), 0, 0), p, from, n, 0) && State() == tally.state
    {
      ghost var g := State();
      tally := Tally(State(), 0, 0);
      var i := 0;
      while i < n
        invariant i <= n && from < Size(tally.state, p) && State() == tally.state
        invariant Hits(catalog, tally, p, from, n, i) == Hits(catalog, Tally(g, 0, 0), p, from, n, 0)
        decreases n - i
      {
        tally := HitStep(catalog, tally, p, from, i);
        Set(tally.state);
        i := i + 1;
      }
    }

    /** `check_for_deaths()`: sweep both boards; while a pass found deaths, recompute the auras
        and run the deaths board by board, then sweep again. */
    method CheckForDeaths(fuel: nat)
      modifies this
      ensures State() == BattleRules.CheckForDeaths(catalog, old(State()), fuel)
    {
      hide BattleRules.RunDeaths;
      hide BattleRules.CheckForDeaths;
      hide SweptSide;
      hide DeadOf;
      hide PositionsOf;
      hide NoDead;
      var f: nat := fuel;
      while true
        invariant f <= fuel
        invariant BattleRules.CheckForDeaths(catalog, State(), f) == BattleRules.CheckForDeaths(catalog, old(State()), fuel)
        decreases f
      {
        ghost var g := State();
        var dead0, positions0, dead1, positions1 := SweepBoards();
        CheckForDeathsStep(catalog, g, f);
        if (dead0 == [] && dead1 == []) || f == 0 {
          return;
        }
        RunDeaths(g, dead0, positions0, dead1, positions1);
        f := f - 1;
      }
    }

    /** The first half of a pass of `check_for_deaths`: both boards swept. */
    method SweepBoards() returns (dead0: seq<Minion>, positions0: seq<int>, dead1: seq<Minion>, positions1: seq<int>)
      modifies this
      ensures State() == BattleRules.SweepBoth(old(State()))
      ensures dead0 == DeadOf(old(side0)) && positions0 == PositionsOf(old(side0))
      ensures dead1 == DeadOf(old(side1)) && positions1 == PositionsOf(old(side1))
    {
      dead0, positions0 := SweepSide(0);
      dead1, positions1 := SweepSide(1);
    }

    /** The first loop of `check_for_deaths` for one board, then the clearing loop behind the
        survivors. Returns the dead minions with the positions they died at. */
    method SweepSide(p: Player) returns (dead: seq<Minion>, positions: seq<int>)
      modifies this
      ensures turn == old(turn) && rng == old(rng)
      ensures SideOf(State(), p) == SweptSide(SideOf(old(State()), p))
      ensures SideOf(State(), 1 - p) == SideOf(old(State()), 1 - p)
      ensures dead == DeadOf(SideOf(old(State()), p)) && positions == PositionsOf(SideOf(old(State()), p))
    {
      hide SweepFrom;
      hide ClearedBetween;
      var s := SideOf(State(), p);
      var w := SweepLoop(s.slots, s.next, s.track);
      var slots := ClearBehind(w.slots, w.write);
      SweptSideFacts(s);
      Set(WithSide(State(), p, s.(slots := slots, next := w.next, track := w.track)));
      dead, positions := w.dead, w.positions;
    }

    /** The second half of a pass of `check_for_deaths`. */
    method RunDeaths(ghost g: BattleState, dead0: seq<Minion>, positions0: seq<int>,
                     dead1: seq<Minion>, positions1: seq<int>)
      requires State() == SweepBoth(g)
      requires dead0 == DeadOf(g.side0) && positions0 == PositionsOf(g.side0)
      requires dead1 == DeadOf(g.side1) && positions1 == PositionsOf(g.side1)
      modifies this
      ensures State() == BattleRules.RunDeaths(catalog, g, old(State()))
    {
      hide Recompute;
      hide DeathsFrom;
      hide SweepBoth;
      hide Extends;
      ghost var s := State();
      Set(Recompute(catalog, State(), 0));
      DeathsFitAfterSweep(g, State(), 0);
      ghost var g1 := State();
      HandleDeaths(0, dead0, positions0);
      ghost var g2 := State();
      Set(Recompute(catalog, State(), 1));
      ExtendsTrans(s, g1, g2);
      ExtendsTrans(s, g2, State());
      DeathsFitAfterSweep(g, State(), 1);
      HandleDeaths(1, dead1, positions1);
    }

    /** `on_death` for each dead minion of board `p`, in the order they were found. */
    method HandleDeaths(p: Player, dead: seq<Minion>, positions: seq<int>)
      requires DeathsFit(State(), p, dead, positions)
      modifies this
      ensures State() == DeathsFrom(catalog, old(State()), p, dead, positions, 0)
    {
      hide OnDeath;
      hide DeathsFit;
      var i := 0;
      while i < |dead|
        invariant i <= |dead| && DeathsFit(State(), p, dead, positions)
        invariant DeathsFrom(catalog, State(), p, dead, positions, i)
               == DeathsFrom(catalog, old(State()), p, dead, positions, 0)
        decreases |dead| - i
      {
        DeathsStep(catalog, State(), p, dead, positions, i);
        Set(OnDeath(catalog, State(), p, dead[i], positions[i]));
        i := i + 1;
      }
    }

    /** `summon_many(count, m, player, pos)`. */
    method SummonMany(count: int, m: Minion, p: Player, pos: nat)
      requires Exists(m) && pos <= Size(State(), p)
      modifies this
      ensures State() == BattleRules.SummonMany(catalog, old(State()), count, m, p, pos)
    {
      if count == 0 {
        return;
      }
      hide InsertStep;
      hide InsertLoop;
      hide Recompute;
      ghost var g := State();
      var n := count * ExtraSummons(State(), p);
      var i := 0;
      while i < n && !Full(State(), p)
        invariant pos <= Size(State(), p)
        invariant InsertLoop(catalog, State(), m, p, pos, n, i) == InsertLoop(catalog, g, m, p, pos, n, 0)
        decreases n - i
      {
        FullIsSize(State(), p);
        InsertLoopStep(catalog, State(), m, p, pos, n, i);
        Set(InsertStep(catalog, State(), m, p, pos));
        i := i + 1;
      }
      InsertLoopDone(catalog, State(), m, p, pos, n, i);
      Set(Recompute(catalog, State(), p));
    }

    /** `summon_for_opponent(m, player)`. */
    method SummonForOpponent(m: Minion, p: Player)
      requires Exists(m)
      modifies this
      ensures State() == BattleRules.SummonForOpponent(catalog, old(State()), m, p)
    {
      hide AppendStep;
      hide AppendLoop;
      hide Recompute;
      ghost var g := State();
      var count := ExtraSummons(State(), p);
      var i := 0;
      while i < count && !Full(State(), 1 - p)
        invariant AppendLoop(catalog, State(), m, p, count, i) == AppendLoop(catalog, g, m, p, count, 0)
        decreases count - i
      {
        FullIsSize(State(), 1 - p);
        AppendLoopStep(catalog, State(), m, p, count, i);
        Set(AppendStep(catalog, State(), m, p));
        i := i + 1;
      }
      AppendLoopDone(catalog, State(), m, p, count, i);
      Set(Recompute(catalog, State(), 1 - p));
    }

    /** `damage_all(player, amount)`: `for_each_with_pos` over the living minions, re-reading
        the board at every slot. */
    method DamageAll(p: Player, amount: int)
      modifies this
      ensures State() == BattleRules.DamageAll(catalog, old(State()), p, amount, 0)
    {
      hide BattleRules.DamageAll;
      hide DamageIfAlive;
      var i := 0;
      while i < BoardSize && Exists(Slots(State(), p)[i])
        invariant i <= BoardSize
        invariant BattleRules.DamageAll(catalog, State(), p, amount, i) == BattleRules.DamageAll(catalog, old(State()), p, amount, 0)
        decreases BoardSize - i
      {
        DamageAllStep(catalog, State(), p, amount, i);
        Set(DamageIfAlive(catalog, State(), p, amount, i));
        i := i + 1;
      }
      DamageAllStep(catalog, State(), p, amount, i);
    }

    /** `score()`. */
    function Score(): (r: int)
      reads this
      ensures r == BattleRules.Score(catalog, State())
    {
      BattleRules.Score(catalog, State())
    }
  }
}
