# Battlegrounds combat simulator, modelled in Dafny

This project models the core of a Hearthstone Battlegrounds combat simulator: two boards of at
most seven minions fight until one board is empty, and the simulator runs that battle many times
to estimate who wins. The model covers:

- the minions (`src/minion.hpp`), the tribes (`src/tribe.hpp`), the static information table
  (`src/minion_info.hpp`, a parameter here) and the fixed-capacity minion array
  (`src/minion_array.hpp`);
- one player's board (`src/board.hpp`): inserting and removing minions while the next attacker
  and the tracked positions follow them, the attack-target choices, auras and the dead-mech
  record;
- the battle (`src/battle.hpp`, `src/battle.cpp`), the minion event handlers
  (`src/minion_events.cpp`) and the hero powers (`src/hero_powers.cpp`). The module
  `BattleRules` gives each member of `Battle` as a function of the whole battle state, and the
  class `Battles.Battle` updates its fields in place and is proved to reach exactly the state
  those functions give. `Sweeps` states what the sweep for dead minions computes;
- the generators (`src/random.hpp`, `src/random.cpp`, `src/random_keys.hpp`): xoroshiro128+,
  its jump functions, the range reduction and the shuffle, the low-variance generators and the
  keyed generator;
- the simulation driver (`src/simulation.hpp`): simulating a battle many times, the score
  summary, the percentile of a score, the permutations of a board and the search for the best
  minion order;
- the board-file parser (`src/parser.hpp`, `src/board_parser.hpp`): fuzzy name matching, the
  cursor-based `StringParser`, buffs and minions, labelled boards and their order;
- the power-log parser (`src/log_parser.cpp`): tag/value pairs, one log line at a time into the
  entities of a game, and the conversion of those entities into the two boards of a battle;
- the card-data generator (`scripts/generate_enum_data.py`): enumeration names, the records read
  from the card database, the sorts, the generator's own entries and the rows of the generated
  tables.

Three rules of the battle differ from the code as written, and the battle and the whole model
built on it use the corrected form. The rules as written are modelled too, and each difference
is shown by a lemma (see "## Findings"):

- `Board::insert` moves a tracked position when the insert position is at or after it
  (`src/board.hpp:186`). The model moves a position when it is at or after the insert position.
- `attack_round` gives the second windfury attack only to a tracked position above 0
  (`src/battle.cpp:33`). The model tests for a position of 0 or more.
- `single_attack_by` reads the defender from slot -1 when the enemy board is empty
  (`src/battle.cpp:46-58`). The model's attack then does nothing.

The random generator and the iteration order of hash maps are parameters of the model. Clocks,
files and the console are left out. `recompute_auras` and the string helpers of the log parser
(`skip_until`, `match_exact`, `parse_exact`, `match_string`, `parse_string`) and the board
parser's `parse_hero_type` are called by the modelled code but defined in files that are not part
of this model. They are reconstructed from
their use and their names.

## Model

| member | source | states |
|---|---|---|
| Tribes.Ordinal | src/tribe.hpp:12-16 | the seven tribes are numbered below 7 in declaration order; None is 0 and All is 6, both ways |
| Tribes.OrdinalInjective | src/tribe.hpp:12-16 | distinct tribes have distinct ordinals, and `FromOrdinal` inverts `Ordinal` |
| Tribes.AllHasEveryTribe | src/tribe.hpp:18-20 | `has_tribe(All, q)` holds for every q |
| Tribes.HasTribeReflexive | src/tribe.hpp:18-20 | `has_tribe(t, t)` holds for every t |
| Tribes.HasTribeExact | src/tribe.hpp:18-20 | for t other than All, `has_tribe(t, q)` holds exactly when q is t, so never for q = All |
| MinionInfo.GoldenDoublesStats | src/minion_info.hpp:30-50 | `attack_for` and `health_for` are the table's base stats for a normal minion and exactly twice them for a golden one |
| MinionInfo.TypeHasTribeMeansTable | src/minion_info.hpp:62-64 | `has_tribe(type, q)` reads the type's table tribe: for a tribe other than All it holds exactly when that tribe is q |
| Minions.EmptySlots | src/minion.hpp:22-76 | the default minion and any cleared minion do not exist (type None), so neither is alive; the default one is dead (health -1) |
| Minions.MakeFacts | src/minion.hpp:36-53 | `Minion(type, golden)` has the given type and goldenness, exists exactly when the type is not None, takes its four keywords and its stats from the table row, doubled when golden, and starts with no aura buff, no reborn and no extra deathrattles |
| Minions.RebornCopyFacts | src/minion.hpp:55-62 | `reborn_copy` is `new_copy` (same type and goldenness) except that its health is 1, so it is not dead |
| Minions.BuffKeepsAuraCounters | src/minion.hpp:77-80 | `buff(a, h)` adds exactly a and h to attack and health and changes nothing else, the aura counters included |
| Minions.ClearUndoesAuraBuff | src/minion.hpp:81-92 | clearing the aura after an `aura_buff` gives the same minion as clearing it before: the counters hold every aura amount applied since the last clear |
| Minions.AuraRoundTrip | src/minion.hpp:77-92 | from zero aura counters, `aura_buff` then `clear_aura_buff` is the identity, while a permanent `buff` survives the clear |
| Minions.CountersSaturate | src/minion.hpp:113-124 | `add_deathrattle_microbots`, `add_deathrattle_golden_microbots` and `add_deathrattle_plants` each change only their own counter, never lower it, add exactly n when that stays within 7, and give 7 otherwise |
| MinionArrays.SizeOf | src/minion_array.hpp:40-45 | `size()` is a k no larger than N such that every slot below k exists and slot k, when there is one, does not |
| MinionArrays.EmptyFromUnique | src/minion_array.hpp:40-45 | those three facts pin `size()` down: any k with them is the size |
| MinionArrays.PrefixOfLength | src/minion_array.hpp:15-45 | an array whose existing slots are exactly those below k satisfies the documented invariant and has size k |
| MinionArrays.InsertedLive | src/minion_array.hpp:77-82 | inserting an existing minion at pos <= size into a non-full array keeps the invariant, grows the size by one and places the minion at pos of the live minions with the rest shifted right |
| MinionArrays.RemovedLive | src/minion_array.hpp:84-87 | `remove(pos)` keeps the invariant; for pos < size it shrinks the size by one and deletes exactly the minion at pos; beyond the size it changes no live minion |
| MinionArrays.InsertThenRemove | src/minion_array.hpp:77-87 | `remove(pos)` after `insert(pos, m)` gives back the live minions |
| MinionArrays.AppendedLive | src/minion_array.hpp:67-75 | appending to a non-full array keeps the invariant and adds the minion at the end of the live minions |
| MinionArrays.AppendedFull | src/minion_array.hpp:67-75 | appending to a full array changes nothing |
| MinionArrays.ClearedFromLive | src/minion_array.hpp:89-93 | `remove_all_from(pos)` with pos inside the live prefix keeps the invariant and cuts the live minions at pos |
| MinionArrays.ClearedAllEmpty | src/minion_array.hpp:61-65 | after `clear()` the invariant holds and nothing is live |
| MinionArrays.MapPrefixKeepsShape | src/minion_array.hpp:117-145 | a `for_each` or `for_each_alive` whose function keeps each minion's type keeps the size and the invariant |
| MinionArrays.SameKindsSameShape | src/minion_array.hpp:15-45 | the size and the invariant depend on the slots' types only |
| MinionArrays.MinionArray.constructor | src/minion_array.hpp:21 | a new array of capacity N holds N default minions: the invariant holds and the size is 0 |
| MinionArrays.MinionArray.Size | src/minion_array.hpp:40-45 | the scan returns `SizeOf` of the slots |
| MinionArrays.MinionArray.QueriesAgreeWithSize | src/minion_array.hpp:47-57 | under the invariant, `empty()` iff the size is 0, `full()` iff the size is N, and `contains(pos)` iff 0 <= pos < size |
| MinionArrays.MinionArray.Clear | src/minion_array.hpp:61-65 | every slot is cleared and nothing else changes |
| MinionArrays.MinionArray.Append | src/minion_array.hpp:67-75 | returns the old size (N when full) and leaves the slots as `Appended`: the minion in the first empty slot, or no change when full |
| MinionArrays.MinionArray.Insert | src/minion_array.hpp:77-82 | refuses exactly when slot N-1 is taken and then changes nothing; otherwise slots before pos are kept, the minion is at pos and pos..N-2 moved one right |
| MinionArrays.MinionArray.Remove | src/minion_array.hpp:84-87 | slots before pos are kept, pos+1..N-1 move one left and slot N-1 is cleared |
| MinionArrays.MinionArray.RemoveAllFrom | src/minion_array.hpp:89-93 | clears the existing slots from pos up to the first empty one and nothing else |
| MinionArrays.MinionArray.ForEach | src/minion_array.hpp:117-145 | applies the update to every slot of the live prefix (only the not-dead ones for `for_each_alive`) and leaves the rest |
| MinionArrays.MinionArray.ForEachWithPos | src/minion_array.hpp:147-158 | applies the update, with its index, to every slot of the live prefix, dead minions included |
| MinionArrays.MinionArray.CountIf | src/minion_array.hpp:160-165 | counts the live-prefix minions that satisfy the predicate, dead ones included, so the count is between 0 and the size |
| Boards.InsertFollowsTrackedMinion | src/board.hpp:179-189 | with the corrected track rule, a tracked position names the same minion after an insert, and a lost position (-1) stays lost |
| Boards.RemoveFollowsTrackedMinion | src/board.hpp:191-200 | after `remove(pos)` a tracked position names the same minion, and becomes -1 exactly when it was lost already or named the removed minion |
| Boards.InsertThenRemoveRestoresPositions | src/board.hpp:179-200 | removing at the position just inserted at restores every tracked position (corrected rule) and the next attacker |
| Boards.InsertKeepsNextAttacker | src/board.hpp:181-184 | after an insert `next_attacker` names the same minion, except that an insert exactly at the next attacker's slot makes the inserted minion the next attacker, as the source's note says |
| Boards.InsertAsWrittenLosesTrackedMinion | src/board.hpp:185-187 | as written, a tracked position 0 under an insert at 1 moves to 1, onto the inserted minion, and a lost position -1 under an insert at 0 becomes 0; the corrected rule keeps 0 and -1 |
| Boards.AttackTargetFacts | src/board.hpp:205-224 | `random_attack_target` is -1 exactly on an empty board, is otherwise an index of a live minion, and is a taunt minion whenever a taunt exists |
| Boards.Lowest | src/board.hpp:228-236 | the first scan finds a value no larger than every attack (up to `INT_MAX`) that is `INT_MAX` or some minion's attack |
| Boards.LowestTargetFacts | src/board.hpp:227-244 | when some attack is at most `INT_MAX`, `lowest_attack_target` is a live index whose attack is minimal |
| Boards.LivingTargetFacts | src/board.hpp:246-261 | `random_living_minion` is -1 exactly when no live-prefix minion has health above 0, and otherwise the index of one that does |
| Boards.HaveLevelZero | src/board.hpp:302-309 | `has_minion(type)` is 0 exactly when no living minion has the type |
| Boards.HaveLevelTwo | src/board.hpp:302-309 | `has_minion(type)` is 2 exactly when a living golden minion has the type (and is at most 2 always) |
| Boards.TotalsAppend | src/board.hpp:60-66 | the total stats and total stars of a board add up over any split of its minions |
| Boards.WithAurasKeepsPermanentState | src/board.hpp:313-328 | recomputing auras changes no type, goldenness, taunt or tribe, and clearing the aura of the result gives the minion the clear gives before it |
| Boards.WithAurasIdempotent | src/board.hpp:313-328 | recomputing the auras twice is the same as once |
| Boards.NoSourceNoAura | src/minion_events.cpp:7-38 | minions of the six aura types are the only ones that give an aura: without one among the sources, no minion gains anything |
| Boards.Board.constructor | src/board.hpp:158-171 | `Board()`: seven empty slots, next attacker 0, tracked positions `{-1}`, which C++ fills as -1, 0, 0, no hero power, level 0 and health 0 |
| Boards.Board.Insert | src/board.hpp:179-189 | refuses exactly when full and then changes nothing; otherwise the slots are `Inserted`, `next_attacker` moves up when above pos, and each tracked position follows its minion (the corrected rule) |
| Boards.Board.Remove | src/board.hpp:191-200 | the slots are `Removed`, `next_attacker` moves down when above pos, and each tracked position above pos moves down while one at pos becomes -1 |
| Boards.Board.ScanForPick | src/board.hpp:213-259 | the countdown scan returns the index of the live minion that is the pick-th to pass the test, or -1 |
| Boards.Board.RandomAttackTarget | src/board.hpp:205-224 | returns `AttackTarget` of the live minions and the old generator state, and draws once unless the board is empty |
| Boards.Board.ScanLowest | src/board.hpp:228-236 | returns the lowest attack of the live minions and how many have it |
| Boards.Board.LowestAttackTarget | src/board.hpp:227-244 | returns `LowestTarget` of the live minions, drawing once unless it is -1 |
| Boards.Board.RandomLivingMinion | src/board.hpp:246-261 | returns `LivingTarget` of the live minions, and draws only when one is alive |
| Boards.Board.HasMinion | src/board.hpp:302-309 | returns `HaveLevel`: 0, 1 or 2 as above |
| Boards.Board.ExtraSummonCount | src/board.hpp:293-295 | `has_minion(Khadgar) + 1`, between 1 and 3 |
| Boards.Board.ExtraDeathrattleCount | src/board.hpp:296-298 | `has_minion(BaronRivendare) + 1`, between 1 and 3 |
| Boards.Board.ExtraBattlecryCount | src/board.hpp:299-301 | `has_minion(BrannBronzebeard) + 1`, between 1 and 3 |
| Boards.Board.TotalStars | src/board.hpp:52-59 | the sum of the table stars of the live minions |
| Boards.Board.TotalStats | src/board.hpp:60-66 | the sum of attack plus health over the live minions |
| Boards.Board.ForEachWithPos | src/board.hpp:131-146 | board.hpp's `for_each_with_pos` updates exactly the live-prefix minions that are not dead |
| Boards.Board.BuffAllIf | src/board.hpp:265-270 | a permanent buff for exactly the living minions that pass the condition |
| Boards.Board.BuffAll | src/board.hpp:271-275 | a permanent buff for exactly the living minions |
| Boards.Board.GiveRandomMinionDivineShield | src/board.hpp:279-286 | the minion `LivingTarget` draws gains divine shield and nothing else changes; no draw and no change when none is alive |
| Boards.Board.BuffRandomMinion | src/board.hpp:279-289 | the minion `LivingTarget` draws gets the buff and nothing else changes; no draw and no change when none is alive |
| Boards.Board.ClearAuras | src/board.hpp:313-317 | every live-prefix minion, dead or not, loses its aura buff |
| Boards.Board.AuraBuffOthersIf | src/board.hpp:318-324 | every live-prefix minion other than pos that passes the condition, dead ones included, gets the aura buff |
| Boards.Board.AuraBuffAdjacent | src/board.hpp:325-328 | only the existing neighbours at pos-1 and pos+1 get the aura buff |
| Boards.Board.OldMurkEyeAura | src/minion_events.cpp:15-24 | Old Murk-Eye gains +1 attack (+2 golden) per murloc of the live prefix and of the enemy count, itself excluded |
| Boards.Board.RecomputeAuraFrom | src/minion_events.cpp:7-38 | answers true exactly for the six aura types, and each minion of the live prefix gains what `AuraFrom` gives it: Dire Wolf Alpha +1 attack to its neighbours, Murloc Warleader +2 attack to other murlocs, Phalanx Commander +2 attack to other taunts, Siegebreaker +1 attack to other demons, Mal'Ganis +2/+2 to other demons, all doubled when golden, and Old Murk-Eye its murloc count |
| Boards.Board.RecomputeAuras | src/board.hpp:313-317 | clear every aura, then apply every live minion's own aura: the slots end as `WithAuras` of the old slots |
| Rng.ZeroIsFixed | src/random.cpp:34-80 | the all-zero state is a fixed point of `next` and of every jump loop, which is why the generator demands a non-zero seed |
| Rng.JumpedZero | src/random.cpp:64-104 | `jump` and `long_jump` map the zero state to itself |
| Rng.DefaultStateNonZero | src/random.hpp:14 | the default seed is not the all-zero state |
| Rng.Draw | src/random.hpp:23-30 | `random(range)` for range > 0 lies in [0, range) |
| Rng.ShuffleFromPermutes | src/random.hpp:38-44 | every Fisher-Yates pass from index i on keeps the multiset of elements |
| Rng.ShuffledPermutes | src/random.hpp:38-44 | `shuffle` yields a permutation of its input of the same length, and for n <= 1 changes nothing and draws nothing |
| Rng.SwapPermutes | src/random.hpp:42 | `std::swap` of two slots keeps the multiset of elements |
| Rng.RNG.constructor | src/random.hpp:14-16 | a default generator starts at the fixed seed |
| Rng.RNG.FromState | src/random.hpp:17 | a generator built from a state holds that state |
| Rng.RNG.Next | src/random.cpp:42-57 | returns s0 + s1 mod 2^64 and moves to s0' = rotl(s0,24) ^ t ^ (t << 16), s1' = rotl(t,37) with t = s1 ^ s0 |
| Rng.RNG.Random | src/random.hpp:23-30 | for range > 0 returns `next() % range`, a value in [0, range), and steps the state once |
| Rng.RNG.JumpWith | src/random.cpp:64-104 | the nested bit loop ends with the state set to `Jumped` of the constant words: the XOR of the states at the set bits, with `next` called on every step |
| Rng.RNG.Jump | src/random.cpp:64-80 | `jump` installs `Jumped(JUMP, state)` |
| Rng.RNG.LongJump | src/random.cpp:88-104 | `long_jump` installs `Jumped(LONG_JUMP, state)` |
| Rng.RNG.NextRng | src/random.hpp:32-36 | `next_rng` returns a new generator holding the current state, and this one jumps |
| Rng.RNG.Shuffle | src/random.hpp:38-44 | the in-place loop leaves the array and the generator as `Shuffled` gives them, a permutation by `ShuffledPermutes` |
| Rng.RNG.ShuffleSeq | src/random.hpp:38-44 | the same shuffle on a vector: the result is `Shuffled`, a permutation of the same length |
| Rng.SwapInPlace | src/random.hpp:42 | swaps the two slots when they differ and changes nothing otherwise |
| LowVariance.Take | src/random.cpp:126-169 | taking the next entry keeps the node's entries as a multiset, keeps their number, and returns an index below it with the cursor just past it |
| LowVariance.ShuffleFromValues | src/random.cpp:128-165 | shuffling a node's entries moves their values exactly as shuffling the values alone would, with the same draws |
| LowVariance.TakeKeeps | src/random.cpp:126-169 | taking keeps a node well formed (values a permutation of 0..n-1), hands out one of its entries with a value below n, and uses the generator only after every entry was handed out |
| LowVariance.TakeNext | src/random.cpp:126-169 | the in-place step reshuffles with the generator exactly when the cursor is at the end and then ends as `Take` says |
| LowVariance.Grown | src/random.cpp:116-121 | a node without children gets n of them, values 0..n-1, each with a new empty subtree, and its cursor at n |
| LowVariance.TreeRandomInRange | src/random.cpp:110-137 | `LowVarianceRNG::random` keeps the tree well formed and returns 0 for n <= 1 and a value in [0, n) otherwise, on every branch |
| LowVariance.TreeTakeKeeps | src/random.cpp:126-135 | handing out an entry keeps the tree well formed, returns a value below n, and divides the budget by n |
| LowVariance.TreeMidRound | src/random.cpp:126-135 | while the current node still has unused entries, `random(n)` leaves the generator alone, returns the next entry's value, descends into its subtree and divides the budget by n |
| LowVariance.TreeRoundDistinct | src/random.cpp:116-135 | the entries of a node hold pairwise different values, so a round of n calls hands out each of 0..n-1 once |
| LowVariance.LowVarianceRNG.constructor | src/random.hpp:77-81 | a new generator has an empty root, the cursor on it and the given budget as both budget and initial budget |
| LowVariance.LowVarianceRNG.Start | src/random.hpp:84-87 | `start()` puts the cursor back on the root and restores the initial budget, keeping the remembered tree |
| LowVariance.LowVarianceRNG.Random | src/random.cpp:110-137 | the method leaves the tree, the generator and the result as `TreeRandom` gives them |
| LowVariance.LowVarianceRNG.Grow | src/random.cpp:116-121 | the children loop leaves the tree as `Grown` |
| LowVariance.Appended | src/random.cpp:149-157 | a new block of n unlinked entries 0..n-1, cursor at n, goes at the end of the vector, and the entry handed out last now links to it |
| LowVariance.Relinked | src/random.cpp:152 | only the entry handed out last is relinked, to the new block |
| LowVariance.FlatRandomInRange | src/random.cpp:143-175 | `FastLowVarianceRNG::random` keeps the vector well formed and returns 0 for n <= 1 and a value in [0, n) otherwise |
| LowVariance.FlatTakeKeeps | src/random.cpp:163-173 | handing out an entry keeps the vector well formed, returns a value below n, and divides the budget by n |
| LowVariance.FlatOpensBlock | src/random.cpp:149-169 | a call with no current block appends a block whose values are a permutation of 0..n-1, links the entry handed out last to it, shuffles it and hands out its first entry |
| LowVariance.FlatMidRound | src/random.cpp:163-173 | while the current block has unused entries the call leaves the generator alone, returns the next entry, remembers its slot, follows its link and divides the budget |
| LowVariance.FlatOtherRange | src/random.cpp:158-162 | a block built for another range makes the call fall back on the plain generator, changing nothing else |
| LowVariance.FastLowVarianceRNG.constructor | src/random.cpp:143-175 | a new generator has an empty vector, no current block and nothing handed out |
| LowVariance.FastLowVarianceRNG.Random | src/random.cpp:143-175 | the method leaves the vector, the generator and the result as `FlatRandom` gives them |
| LowVariance.FastLowVarianceRNG.OpenBlock | src/random.cpp:149-157 | the loop leaves the vector as `Appended` |
| KeyedRng.Drawn1 | src/random.cpp:224-229 | one permutation's step keeps its elements as a multiset and leaves its index between 1 and n |
| KeyedRng.KeyedRandomInRange | src/random.cpp:207-230 | `KeyedRNG::random` keeps the table well formed, returns 0 without touching anything for n <= 1, and otherwise a value in [0, n) |
| KeyedRng.KeyedExitsOnLimit | src/random.cpp:210-223 | the program ends exactly on the call after a header's thirty-first of the run |
| KeyedRng.KeyedOwnPermutation | src/random.cpp:210-229 | the k-th call of a run with (key, n) counts the call and hands out the next value of that header's k-th permutation, creating it when missing, and changes no other header and no other permutation |
| KeyedRng.KeyedMidRound | src/random.cpp:224-229 | while that permutation has unused entries the generator is not consulted and the values come in the permutation's order |
| KeyedRng.KeyedRoundDistinct | src/random.cpp:213-229 | two positions of one permutation hold different values, so no value repeats within a round |
| KeyedRng.RestartedResets | src/random.cpp:200-205 | `start()` keeps every permutation and the table well formed, and the next call with any header is that run's first |
| KeyedRng.KeyedRNG.constructor | src/random.cpp:238-244 | a new generator has an empty table |
| KeyedRng.KeyedRNG.Start | src/random.cpp:200-205 | the loop leaves the table as `Restarted`: every counter 0 |
| KeyedRng.KeyedRNG.Random | src/random.cpp:207-230 | the method leaves the table, the generator and the result as `KeyedRandom` gives them, `None` standing for the exit |
| KeyedRng.KeyedRNG.Identity | src/random.cpp:214-217 | the loop builds 0..n-1 |
| KeyedRng.KeyedRNG.DrawFrom | src/random.cpp:224-229 | reshuffles a used-up permutation, then hands out its entry at the index: as `Drawn1` |
| RandomKeys.Ordinal | src/random_keys.hpp:8-15 | the ten generator types are numbered within 1..10 |
| RandomKeys.OrdinalRoundTrip | src/random_keys.hpp:8-15 | the numbering starts at 1 and is consecutive: each of 1..10 is exactly one type |
| RandomKeys.Key | src/random_keys.hpp:17-19 | `rng_key(type)` is the type's number, from which the type reads back |
| RandomKeys.AmountKeyDecodes | src/random_keys.hpp:20-25 | the fields of `rng_key(type, player, amount)` do not overlap: the key is type + 256 player + 512 amount, and the type, the player and the amount read back from it; `rng_key(type, player)` is the same with amount 0 |
| RandomKeys.AmountKeyInjective | src/random_keys.hpp:23-25 | two requests get the same key exactly when type, player and amount agree |
| RandomKeys.AttackerKeyGoldenCollides | src/random_keys.hpp:26-28 | as written, a golden attacker's key equals the key of the plain attacker whose type number differs in its lowest bit; a plain attacker's key is the amount key of its type number |
| RandomKeys.XorAssoc | src/random_keys.hpp:24-27 | the exclusive or the keys are built with is associative |
| RandomKeys.XorDisjoint | src/random_keys.hpp:21-24 | on fields that do not overlap, exclusive or is addition |
| RandomKeys.RandomElement | src/random_keys.hpp:36-42 | `random_element` yields an element of the list and keeps the table well formed, stops exactly when the generator does, and for a one-element list returns it without drawing |
| MinionEvents.SummonReactions | src/minion_events.cpp:156-200 | a summon is answered only as the switch says: Tidecallers grow on murlocs, Cobalt Guardians take a shield on mechs, Pack Leaders and Mama Bears buff summoned beasts, a Wrath Weaver does nothing unless the minion was played; no effect changes either minion's type |
| MinionEvents.EffectKeepsKinds | src/minion_events.cpp:156-200 | carrying out any summon effect leaves both minions' types alone |
| MinionEvents.BeastBuffAmounts | src/minion_events.cpp:175-197 | a summoned beast gets +3/+0 from a Pack Leader, +4/+4 from a Mama Bear, +5/+5 from the old Mama Bear, doubled by gold |
| MinionEvents.DeathReactions | src/minion_events.cpp:202-222 | Hyenas grow +2/+1 on a beast's death, Junkbots +2/+2 on a mech's, each doubled by gold; Soul Jugglers throw 3 (6 golden) damage exactly when a demon dies |
| MinionEvents.OnAttackAndKill | src/minion_events.cpp:237-249 | Ironhide Direhorn summons a runt exactly on overkill; the Boogeymonster, and only it, grows +2/+2 (doubled by gold) on every kill |
| MinionEvents.OnAfterFriendlyAttack | src/minion_events.cpp:251-258 | after a friend attacks, a Festeroot Hulk gains +1 attack (+2 golden) and every other minion stays as it was |
| MinionEvents.OnBreakFriendlyDivineShield | src/minion_events.cpp:260-267 | when a friend loses its shield, Bolvar Fireblood gains +2 attack (+4 golden) and every other minion stays as it was |
| MinionEvents.BaseDeathrattle | src/minion_events.cpp:46-154 | every token a deathrattle summons or hands over is a real type, and token summons other than Rat Pack's make one to three |
| MinionEvents.GoldenDeathrattles | src/minion_events.cpp:46-154 | the golden version of each deathrattle is the plain one scaled as the table intends: repetitions, buffs and the dead-mech limit double, token counts stay (the tokens become golden), Kaboom Bot's damage stays 4 and the Beast's Finkle stays plain |
| BattleRules.ExtendsTrans | src/battle.cpp:145-195 | between two sweeps for dead minions the battle only grows: no minion leaves a board, a tracked position that names a minion keeps naming one, a lost one stays lost, and this composes over consecutive steps |
| BattleRules.FullIsSize | src/minion_array.hpp:47-57 | a board is full exactly when all seven slots hold minions |
| BattleRules.InsertAt | src/board.hpp:179-189 | `insert(pos, m)` on a board that is not full puts `m` at `pos`, grows the board by one and keeps every board's invariant (live prefix, tracked positions that named a minion still name one) |
| BattleRules.SideAfterInsert | src/board.hpp:179-189 | the board after `insert`: one minion more, `m` at `pos`, the tracked positions and the next attacker moved with the minions they name |
| BattleRules.AppendAt | src/battle.cpp:255-257 | `append(m)` on a board that is not full puts `m` in the first empty slot and grows the board by one, keeping the invariant |
| BattleRules.SummonTrigger | src/battle.cpp:262-267 | one friend's reaction to a summon changes no board's size, keeps the invariant and draws nothing from the generator |
| BattleRules.SummonTriggers | src/battle.cpp:262-267 | `on_summoned` over the living friends keeps both boards' sizes and the generator, and keeps the invariant |
| BattleRules.InsertLoop | src/battle.cpp:246-249 | the insert loop of `summon_many` keeps the invariant and draws nothing |
| BattleRules.InsertLoopStep | src/battle.cpp:246-249 | while fewer than `n` were inserted and the board is not full, a round inserts and runs the triggers, and the position stays within the board |
| BattleRules.InsertLoopDone | src/battle.cpp:246 | the loop stops once `n` were inserted or the board is full |
| BattleRules.InsertStep | src/battle.cpp:247-248 | one round of the loop grows the board by exactly one |
| BattleRules.Recompute | src/battle.cpp:250 | `recompute_auras` on one board replaces its slots by the same minions with their auras recomputed, changes nothing else and keeps the invariant |
| BattleRules.SummonMany | src/battle.cpp:243-251 | `summon_many` keeps the invariant of both boards and draws nothing |
| BattleRules.Summon | src/battle.cpp:239-241 | `summon` keeps the invariant and draws nothing |
| BattleRules.AppendLoop | src/battle.cpp:255-258 | the loop of `summon_for_opponent` keeps the invariant and draws nothing |
| BattleRules.AppendLoopStep | src/battle.cpp:255-258 | while fewer than `count` were appended and the enemy board is not full, a round appends and runs the summoner's triggers |
| BattleRules.AppendLoopDone | src/battle.cpp:255 | that loop stops once `count` were appended or the enemy board is full |
| BattleRules.AppendStep | src/battle.cpp:256-257 | one round grows the enemy board by exactly one |
| BattleRules.SummonForOpponent | src/battle.cpp:253-260 | `summon_for_opponent` keeps the invariant and draws nothing |
| BattleRules.BreakShield | src/battle.cpp:135-139 | `on_break_divine_shield` keeps the invariant and draws nothing |
| BattleRules.OnDamaged | src/minion_events.cpp:224-235 | `on_damaged` keeps the invariant and draws nothing |
| BattleRules.Damage | src/battle.cpp:94-113 | `damage` keeps the invariant and draws nothing |
| BattleRules.DamageRandomMinion | src/battle.cpp:122-127 | `damage_random_minion` keeps the invariant |
| BattleRules.DamageAll | src/battle.cpp:129-133 | `damage_all` keeps the invariant and draws nothing |
| BattleRules.DamageIfAlive | src/battle.cpp:129-133 | one slot of `damage_all`: an empty slot or a dead minion is skipped and the battle stays as it was |
| BattleRules.DamageAllStep | src/board.hpp:147-158 | `for_each_with_pos` visits slot `i` while it holds a minion and stops at the first empty slot |
| BattleRules.UpdateRandomLiving | src/board.hpp:279-289 | `give_random_minion_divine_shield` and `buff_random_minion` change exactly the drawn living minion, or nothing when none lives, and draw only when some minion lives |
| BattleRules.Pick | src/minion_info.hpp:68-80 | a random pool minion is an entry of that pool and never `None` |
| BattleRules.Act | src/minion_events.cpp:46-154 | each random action of a golden deathrattle keeps the invariant |
| BattleRules.Repeat | src/minion_events.cpp:56-60 | the repeated actions keep the invariant |
| BattleRules.DeadMechs | src/minion_events.cpp:133-137 | Kangor's Apprentice keeps the invariant and draws nothing |
| BattleRules.BaseDeathrattleEffect | src/minion_events.cpp:46-154 | the dead minion's own deathrattle keeps the invariant |
| BattleRules.OneDeathrattle | src/battle.cpp:224-231 | one round of `do_deathrattle` keeps the invariant |
| BattleRules.DeathrattleRounds | src/battle.cpp:221-233 | `do_deathrattle`, with its round count fixed on entry, keeps the invariant |
| BattleRules.FriendlyDeaths | src/battle.cpp:210-212 | `on_friendly_death` over the living friends keeps the invariant |
| BattleRules.RecordMech | src/battle.cpp:213-218 | recording a dead mech changes no board's minions and draws nothing |
| BattleRules.OnDeath | src/battle.cpp:205-219 | `on_death` keeps the invariant |
| BattleRules.DeathsFitGrows | src/battle.cpp:189-191 | the deaths the sweep collected still fit the board after any step that only grows it |
| BattleRules.DeathsFrom | src/battle.cpp:189-191 | handling the deaths of one board in order keeps the invariant |
| BattleRules.DeathsStep | src/battle.cpp:189-191 | each round of that loop calls `on_death` with a minion that existed and a position within the board, and the rest still fit |
| BattleRules.SweptSideFacts | src/battle.cpp:153-184 | the sweep keeps the board's invariant, leaves exactly the survivors in order and only living minions, and hands over dead minions at positions within the compacted board |
| BattleRules.SweepBoth | src/battle.cpp:153-184 | after the sweep of both boards no dead minion is left on either |
| BattleRules.DeathsFitAfterSweep | src/battle.cpp:163-164 | what the sweep took off a board fits the death handlers of every later state |
| BattleRules.RunDeaths | src/battle.cpp:186-192 | running the deaths keeps whose turn it is |
| BattleRules.CheckForDeaths | src/battle.cpp:145-195 | after `check_for_deaths` no dead minion is left on either board, and the turn is kept |
| BattleRules.CheckForDeathsStep | src/battle.cpp:152-194 | a pass sweeps, returns when no board lost a minion, and otherwise runs the deaths and loops |
| BattleRules.TargetFacts | src/battle.cpp:46-47 | the target is a live enemy slot or -1, it is -1 on an empty enemy board, and a minion other than Zapp Slywick hits a taunt whenever there is one |
| BattleRules.Hits | src/battle.cpp:59-73 | the hit loop keeps the invariant and counts at most one kill per tracked target |
| BattleRules.HitStep | src/battle.cpp:61-72 | one round adds at most one kill and does not shrink the attacker's board |
| BattleRules.HitAt | src/battle.cpp:62-72 | a tracked target that names no minion is skipped; otherwise at most one kill, and an overkill only with a kill |
| BattleRules.AttackAndKill | src/battle.cpp:76-78 | `on_attack_and_kill` keeps the invariant |
| BattleRules.AimedAt | src/battle.cpp:54-58 | the target is tracked first, and for cleave its two neighbours next; without cleave the other tracked positions stay |
| BattleRules.SingleAttackBy | src/battle.cpp:41-82 | an attack keeps the turn, and with no enemy minion it leaves the battle as it is |
| BattleRules.Aim | src/battle.cpp:46-58 | choosing the target draws once, moves no minion and tracks the targets as `AimedAt` says |
| BattleRules.Strike | src/battle.cpp:59-79 | the attack before the sweep keeps the invariant |
| BattleRules.StruckBack | src/battle.cpp:74-79 | the defender's snapshot striking back, and the triggers after, keep the invariant |
| BattleRules.AfterAttack | src/battle.cpp:76-79 | the kill and after-attack triggers keep the invariant |
| BattleRules.DefenderIndexOnEmptyBoard | src/battle.cpp:46-52 | as written, an attack on an empty enemy board reads the defender from index -1; the model's attack leaves the battle alone |
| BattleRules.AttackerSlot | src/battle.cpp:22-27 | the attacker is the next attacker when it names a minion, otherwise slot 0, and always a live slot |
| BattleRules.SecondAttack | src/battle.cpp:32-36 | when the windfury test fails there is no second attack and the battle stays as it was |
| BattleRules.AttackRound | src/battle.cpp:20-39 | a round (corrected windfury test) hands the turn to the other player |
| BattleRules.AttackRoundSteps | src/battle.cpp:22-36 | a round tracks the attacker's slot, attacks from it, then makes the second attack from the tracked slot |
| BattleRules.AttackRoundAsWritten | src/battle.cpp:20-39 | the round as written also hands the turn over |
| BattleRules.Run | src/battle.cpp:9-13 | a finished battle stays as it is, and a battle is done exactly when a board is empty |
| BattleRules.HeroPowerEffect | src/hero_powers.cpp:8-42 | each hero power keeps the invariant, and a board without one is left as it was |
| BattleRules.UseHeroPower | src/battle.cpp:274-277 | the player's hero power fires and is used up; the other player's is kept |
| BattleRules.DoHeroPowers | src/battle.cpp:273-278 | after `do_hero_powers` both hero powers are used up and the turn is kept |
| BattleRules.Start | src/battle.cpp:15-18 | after `start` the battle has started with turn 0 or 1 and both hero powers are used up |
| BattleRules.NoMechs | src/battle.hpp:21 | a side starts with no dead mechs recorded and its minions as given |
| BattleRules.NewBattle | src/battle.hpp:28-34 | a new battle has not started, keeps the sizes of both boards and has no dead mechs recorded |
| BattleProperties.InsertLoopSize | src/battle.cpp:246-249 | the insert loop adds `n - i` minions, or fewer when the board fills: the size becomes the smaller of the old size plus the count and seven |
| BattleProperties.SummonManyCap | src/battle.cpp:243-251 | `summon_many` multiplies the count by Khadgar's 1 to 3 and adds that many minions, up to a full board; a count of 0 changes nothing |
| BattleProperties.AppendLoopSize | src/battle.cpp:255-258 | the append loop fills the enemy board the same way |
| BattleProperties.SummonForOpponentCap | src/battle.cpp:253-260 | `summon_for_opponent` adds the summoner's Khadgar multiplier of minions to the other board, up to a full board |
| BattleProperties.DamageNothing | src/battle.cpp:95 | damage of 0 or less changes nothing |
| BattleProperties.DamageBreaksShield | src/battle.cpp:100-103 | a divine shield absorbs the hit: the shield is gone, the health and type stay, the other board and the generator are untouched |
| BattleProperties.DamageHurts | src/battle.cpp:104-112 | without a shield the health drops by the amount, a poisonous hit kills, and a minion that summons nothing when damaged changes in its own slot only |
| BattleProperties.LichKingRebornsRightmost | src/hero_powers.cpp:23-29 | the Lich King gives reborn to the rightmost minion, and does nothing to an empty board |
| BattleProperties.GiantfinMarksEveryMinion | src/hero_powers.cpp:30-34 | Giantfin gives every minion of the board, dead or alive, one murloc deathrattle, and changes nothing else |
| BattleProperties.PutricideBuffsFirstSlot | src/hero_powers.cpp:35-40 | Professor Putricide gives the first minion +10 attack, and does nothing to an empty board |
| BattleProperties.DoneIffEmpty | src/battle.hpp:39-41 | `done()` looks at the first slots, which by the live prefix means a board is empty (or the turn is past 1) |
| BattleProperties.ScoreSwapped | src/battle.hpp:44-49 | swapping the boards negates the score |
| BattleProperties.ScoreOfWinner | src/battle.hpp:44-49 | when player 1's board is empty the score is player 0's stars; when both are empty it is 0 |
| BattleProperties.WindfuryTestsDiffer | src/battle.cpp:33 | the test as written and the corrected test differ exactly for a windfury attacker tracked at slot 0 |
| BattleProperties.RoundsAgreeWithoutWindfury | src/battle.cpp:20-39 | without windfury on the attacker the round as written and the corrected round are the same |
| BattleProperties.RecordMechInOrder | src/battle.cpp:213-218 | a dead mech is recorded after the earlier ones while fewer than four are recorded; anything else leaves the record as it is |
| BattleProperties.DamageRandomMinionMisses | src/battle.cpp:122-127 | with no living minion on the board nothing happens and nothing is drawn |
| BattleProperties.DamageRandomMinionHits | src/battle.cpp:122-127 | with a living minion the generator moves on once and one living minion takes the damage |
| BattleProperties.RagnarosHitsTwice | src/hero_powers.cpp:15-18 | Ragnaros hits two random living enemies for 8, and does nothing to a board with no living minion |
| BattleProperties.PatchesHitsTwice | src/hero_powers.cpp:19-22 | Patches hits two random living enemies for 3, and does nothing to a board with no living minion |
| BattleProperties.BreakShieldGains | src/battle.cpp:134-138 | `on_break_divine_shield` changes the living minions of the board only by the attack a Bolvar Fireblood gains, never lowering any attack |
| BattleProperties.DamageAllQuiet | src/battle.cpp:129-133 | on a board where no minion summons when damaged, `damage_all` strikes every living minion once, so a divine shield is lost or else the health drops; apart from the attack a Bolvar Fireblood gains from broken shields nothing else changes, and without a Bolvar the board is exactly the struck one; the other board and the generator are untouched |
| BattleProperties.NefarianHitsEveryEnemy | src/hero_powers.cpp:12-14 | Nefarian strikes every living enemy minion of such a board with 1 damage (a shield absorbs it), only a Bolvar Fireblood may gain attack besides, and the player's own board and the generator are left alone |
| Battles.Battle.constructor | src/battle.hpp:28-34 | a new battle holds the two boards with their auras computed, no dead mechs and no turn yet (`NewBattle`) |
| Battles.Battle.Set | src/battle.hpp:16-21 | the fields take the given battle state |
| Battles.Battle.Run | src/battle.cpp:9-13 | the loop of attack rounds leaves the battle as `BattleRules.Run` says |
| Battles.Battle.Start | src/battle.cpp:15-18 | the coin flip and the hero powers leave the battle as `BattleRules.Start` says |
| Battles.Battle.DoHeroPowers | src/battle.cpp:273-278 | the loop over both players leaves the battle as `BattleRules.DoHeroPowers` says |
| Battles.Battle.AttackRound | src/battle.cpp:20-39 | a round leaves the battle as `BattleRules.AttackRound` says |
| Battles.Battle.NextAttacker | src/battle.cpp:22-29 | the attacker is the next attacker or slot 0, a live slot; the next attacker moves past it and its slot is tracked; its windfury flag is read before the attack |
| Battles.Battle.SecondAttackBy | src/battle.cpp:32-36 | the windfury part of the round, as `BattleRules.SecondAttack` with the corrected test |
| Battles.Battle.SingleAttackBy | src/battle.cpp:41-82 | an attack leaves the battle as `BattleRules.SingleAttackBy` says |
| Battles.Battle.HitLoop | src/battle.cpp:59-73 | the loop over the tracked targets yields the tally of `BattleRules.Hits`, and the attacker stays on its board |
| Battles.Battle.CheckForDeaths | src/battle.cpp:145-195 | the loop of passes leaves the battle as `BattleRules.CheckForDeaths` says |
| Battles.Battle.SweepBoards | src/battle.cpp:153-184 | both boards swept as `BattleRules.SweepBoth` says, with the dead minions and their positions |
| Battles.Battle.SweepSide | src/battle.cpp:155-183 | one board swept as `BattleRules.SweptSide` says, the other board, the turn and the generator untouched |
| Battles.Battle.RunDeaths | src/battle.cpp:186-192 | the recomputed auras and the deaths of both boards, as `BattleRules.RunDeaths` says |
| Battles.Battle.HandleDeaths | src/battle.cpp:189-191 | `on_death` for each dead minion in order, as `BattleRules.DeathsFrom` says |
| Battles.Battle.SummonMany | src/battle.cpp:243-251 | the loop of `summon_many` leaves the battle as `BattleRules.SummonMany` says |
| Battles.Battle.SummonForOpponent | src/battle.cpp:253-260 | the loop of `summon_for_opponent` leaves the battle as `BattleRules.SummonForOpponent` says |
| Battles.Battle.DamageAll | src/battle.cpp:129-133 | the loop of `damage_all` leaves the battle as `BattleRules.DamageAll` says |
| Battles.Battle.Score | src/battle.hpp:44-49 | the score of the battle's state, whose properties are `BattleProperties.ScoreSwapped` and `BattleProperties.ScoreOfWinner` |
| Simulation.Runs | src/simulation.hpp:13-25 | `n` runs give `n` scores, in the order played, each battle copy sharing the generator |
| Simulation.InsertSorted | src/simulation.hpp:26 | inserting into a sorted list keeps it sorted and adds exactly that score |
| Simulation.SortScores | src/simulation.hpp:26 | `std::sort` on the scores: ascending and a permutation of them |
| Simulation.Simulate | src/simulation.hpp:20-28 | `simulate` returns `n` scores, sorted, a permutation of the runs as played, and the generator after them |
| Simulation.WithScoreCounts | src/simulation.hpp:51-56 | `add_score` counts one run, as a win, a draw or a loss by the sign of the score, and adds the score to the total |
| Simulation.AddAllCounts | src/simulation.hpp:57-59 | adding a list grows the total by the list's sum, the wins, draws and losses by its numbers of positive, zero and negative scores, and the runs by its length |
| Simulation.WithScoreCommutes | src/simulation.hpp:51-56 | the order of two scores does not matter |
| Simulation.AddAllPermutation | src/simulation.hpp:57-59 | the summary of a list depends only on its scores, not on their order |
| Simulation.SummaryOfSimulate | src/simulation.hpp:62-68 | the summary of `simulate`'s sorted results equals `simulate_summary` of the same runs, and counts `n` runs |
| Simulation.ScoreSummary.constructor | src/simulation.hpp:36 | a new summary has every counter at 0 |
| Simulation.ScoreSummary.FromScores | src/simulation.hpp:37-39 | `ScoreSummary(scores)` is the empty summary with the scores added |
| Simulation.ScoreSummary.NumRuns | src/simulation.hpp:41 | the runs are the wins, draws and losses together |
| Simulation.ScoreSummary.AddScore | src/simulation.hpp:51-56 | `add_score` updates the counters as `WithScore` says |
| Simulation.ScoreSummary.AddScores | src/simulation.hpp:57-59 | the loop adds every score in order |
| Simulation.LowerBound | src/simulation.hpp:103-104 | the first index of a sorted list whose score is not below `i`: everything before is below, everything after is not |
| Simulation.UpperBound | src/simulation.hpp:103-105 | the first index whose score is above `i`: everything before is at most `i`, everything after above |
| Simulation.LowerBoundAtLeast | src/simulation.hpp:103-104 | the lower bound is at least the length of any prefix below `i` |
| Simulation.UpperBoundAtLeast | src/simulation.hpp:103-105 | the upper bound is at least the length of any prefix at most `i` |
| Simulation.PercentileCases | src/simulation.hpp:102-107 | as written, a single result divides by zero, an empty list gives 0 (the divisor wraps to the largest 64-bit value), and otherwise the value is not negative |
| Simulation.EqualRangeCounts | src/simulation.hpp:103-105 | the equal range counts the results below `i` and those not above it |
| Simulation.PercentileAbove100 | src/simulation.hpp:106 | as written, the larger of two different results lies at the 150th percentile |
| Simulation.PercentileCorrected | src/simulation.hpp:102-107 | the corrected percentile is a number from 0 to 100, none exactly for no results |
| Simulation.PercentileCorrectedMonotone | src/simulation.hpp:102-107 | a larger score never lies at a smaller percentile |
| Simulation.PermuteMinions | src/simulation.hpp:113-118 | `permute_minions` sets slot `k` to `original[perm[k]]` for `k < n` and leaves the other slots |
| Simulation.PermutedKeepsMinions | src/simulation.hpp:113-118 | with a permutation of `0 .. n-1` the first `n` slots hold the first `n` original minions in the new order, and the slots after them are untouched |
| Simulation.GatherPermutes | src/simulation.hpp:115-117 | gathering at a permutation of the positions rearranges the elements |
| Simulation.BestIsFirstMaximum | src/simulation.hpp:133-147 | the order kept is the first one reaching the highest score, and its score is that maximum |
| Simulation.Identity | src/simulation.hpp:129-130 | the first order tried is the identity |
| Simulation.OptimizeMinionOrder.constructor | src/simulation.hpp:126-148 | `n` is the board's size, the current score is the identity order's, the best order is the first with the highest score, and the best score is at least the current one |
| Sweeps.SweepLoop | src/battle.cpp:156-180 | the first loop of the sweep, step by step, computes `SweepFrom` |
| Sweeps.ClearBehind | src/battle.cpp:181-183 | the second loop clears the stale copies from the write index up to the first empty slot |
| Sweeps.SweepReads | src/battle.cpp:158-164 | the slot the loop reads at step `i` is still the original one, never one it has overwritten |
| Sweeps.StepSlots | src/battle.cpp:162-179 | each step keeps the surviving minions seen so far, in order, in front of the unread slots |
| Sweeps.StepNext | src/battle.cpp:159-161 | each step keeps the next attacker renumbered to the count of survivors before it |
| Sweeps.StepTrack | src/battle.cpp:165-176 | each step keeps every tracked position renumbered, and lost (-1) for a dead minion |
| Sweeps.StepDead | src/battle.cpp:162-169 | each step keeps the dead seen so far collected in order with the number of survivors before each |
| Sweeps.SweepFromReaches | src/battle.cpp:158-180 | the loop, run to the end of the live prefix, has computed all of the above for the whole board |
| Sweeps.ClearedIsCompacted | src/battle.cpp:181-183 | the clearing loop turns the swept slots into the compacted board |
| Sweeps.SweepBoardClosed | src/battle.cpp:153-184 | the sweep of a board is the closed form: the survivors in order in front, cleared copies behind them, the next attacker and the tracked positions renumbered, and the dead in order with their positions |
| Sweeps.SurvivorsExist | src/battle.cpp:170-179 | every survivor is a living minion |
| Sweeps.CasualtiesExist | src/battle.cpp:162-169 | every collected minion existed and is dead |
| Sweeps.CompactedLive | src/battle.cpp:153-184 | the compacted board keeps the live prefix and holds exactly the survivors in their old order |
| Sweeps.RenumberedFollows | src/battle.cpp:165-176 | a tracked minion that survives is found at its new position, one that dies is lost, and the position stays valid on the compacted board |
| Sweeps.DeadPositionsBounded | src/battle.cpp:163 | every position recorded for a dead minion lies within the compacted board, and they never decrease |
| Parser.KeysIgnored | src/parser.hpp:28-30 | a stretch of ignored characters (white space, `'`, `-`, `_`, `:`) contributes nothing to a name's key |
| Parser.KeysLast | src/parser.hpp:28-30 | a stretch ending in a character that is not ignored has a non-empty key |
| Parser.SkipSpaces | src/parser.hpp:56-57 | the position after the spaces: every character skipped is a space and the one reached is not |
| Parser.SkipIgnored | src/parser.hpp:41-42 | the position after the ignored characters: every character skipped is ignored and the one reached is not |
| Parser.MatchName | src/parser.hpp:40-50 | `match_name(a, b)` holds exactly when both names are equal once the ignored characters are deleted and the rest lower-cased (so it is reflexive and symmetric) |
| Parser.KeysDiverge | src/parser.hpp:43-44 | when the scans meet two different key characters, or one name ends before the other, the keys differ |
| Parser.LastKeyEnd | src/parser.hpp:61-64 | the query's last compared character: only ignored characters follow it |
| Parser.PrefixMatch | src/parser.hpp:55-68 | `match_name_or_prefix` succeeds exactly when, after leading spaces, a stretch of `a` presents the whole query's key (case folded, ignored characters skipped between query characters, not after the last) and a word ends where the cursor stops; the result lies within `a` at a word end |
| Parser.MatchesUnique | src/parser.hpp:55-68 | a query matches at most one stretch of the text |
| Parser.QueryDone | src/parser.hpp:61-64 | a query used up at `mb` has only ignored characters after it, and its tail decides whether the text's ignored characters are skipped too |
| Parser.MatchNameOrPrefix | src/parser.hpp:55-68 | the loop of `match_name_or_prefix` returns exactly `PrefixMatch` |
| Parser.SkipSpacesFrom | src/parser.hpp:113 | the space-skipping loop stops where `SkipSpaces` says |
| Parser.SkipIgnoredFrom | src/parser.hpp:46-47 | the ignored-character loop stops where `SkipIgnored` says |
| Parser.MatchStep | src/parser.hpp:58-64 | a compared pair of equal characters extends both keys alike |
| Parser.NoMatchHere | src/parser.hpp:58-59 | a scan that stops short of the query's end, on a mismatch or at the end of the text, means no match anywhere |
| Parser.MatchHere | src/parser.hpp:66-67 | a scan that uses up the query matches, and the result is the cursor exactly when it stands at a word end |
| Parser.SkipDigits | src/parser.hpp:105 | the position after a run of digits |
| Parser.ScanInt | src/parser.hpp:103-111 | `sscanf("%d%n")` succeeds exactly when, after white space and an optional sign, a digit follows; on success the cursor moves past all the digits |
| Parser.DigitsOfNat | src/parser.hpp:105 | reading the digits of a natural number gives the number |
| Parser.ScanIntToString | src/parser.hpp:103-111 | reading back a written number that no digit follows gives the number and its length |
| Parser.ScanIntAt | src/parser.hpp:103-111 | the same at any position of a line |
| Parser.BlankTo | src/parser.hpp:115-126 | the rest of the line is white space up to the end or a `#`: the position of the end or the `#`; none when another character comes first |
| Parser.TokenEnd | src/parser.hpp:176-177 | the token runs up to the first `,` or the end |
| Parser.NextTokenOf | src/parser.hpp:172-179 | `next_token()` is `<end of line>` when only spaces are left, otherwise the text from the first non-space up to the next `,` or the end |
| Parser.StringParser.constructor | src/parser.hpp:74-76 | a new parser stands at the start of the line |
| Parser.StringParser.Match | src/parser.hpp:83-91 | `match(query)` succeeds exactly when `match_name_or_prefix` does and then advances to its result; on failure the cursor stays |
| Parser.StringParser.ExactMatch | src/parser.hpp:92-102 | `exact_match(query)` succeeds exactly when the query stands at the cursor byte for byte, and then advances past it; on failure the cursor stays |
| Parser.StringParser.MatchInt | src/parser.hpp:103-111 | `match_int` yields the number `sscanf` reads and advances past it; on failure the cursor stays |
| Parser.StringParser.SkipWs | src/parser.hpp:112-114 | `skip_ws()` moves past the spaces |
| Parser.StringParser.MatchEnd | src/parser.hpp:115-126 | `match_end()` succeeds exactly when the rest is blank or a comment, stopping at the end or the `#`; on failure the cursor is restored |
| Parser.StringParser.ParseEnd | src/parser.hpp:130-134 | `parse_end()` is `match_end()` (the message is not modelled) |
| Parser.StringParser.ParseInt | src/parser.hpp:135-139 | `parse_int` is `match_int` (the message is not modelled) |
| Parser.StringParser.ParsePositive | src/parser.hpp:140-146 | `parse_positive` accepts exactly a number above 0 and advances past it; otherwise the cursor is restored |
| Parser.StringParser.ParseNonNegative | src/parser.hpp:147-153 | `parse_non_negative` accepts exactly a number of at least 0; otherwise the cursor is restored |
| Parser.StringParser.NextToken | src/parser.hpp:172-179 | the loop of `next_token()` returns `NextTokenOf` |
| Parser.MatchAdvances | src/parser.hpp:55-68 | a match of a query that starts with a non-space consumes at least one character |
| Parser.NoMatchAtEnd | src/parser.hpp:55-68 | where only spaces are left, no such query matches |
| Parser.LiteralMatch | src/parser.hpp:55-68 | a query written literally after the spaces, starting with a non-space and ending on a character that is not ignored, matches exactly when a word ends after it |
| Parser.FirstMatch | src/parser.hpp:186-194 | the first name of the table that matches lies within the table |
| Parser.NoneMatch | src/parser.hpp:186-194 | when no name matches the lookup finds nothing |
| Parser.FirstMatchIsFirst | src/parser.hpp:186-194 | the lookup finds a name that matches and no earlier one does, or finds nothing when none does |
| Parser.MatchFirst | src/parser.hpp:186-194 | the loop of `match_minion_type` (and of the reconstructed `parse_hero_type`) returns the first matching name in table order and leaves the cursor after it, or unmoved when none matches |
| Parser.MinionNames | src/parser.hpp:188 | the names tried are the table's minion names in enum order |
| Parser.HeroNames | src/minion_info.hpp:100-102 | the names the reconstructed `parse_hero_type` tries are the `HeroType` names of `hero_info`, in enum order |
| Parser.MatchMinionType | src/parser.hpp:186-194 | `match_minion_type` yields the first minion type whose name matches, advancing past it |
| Parser.KeywordBuff | src/parser.hpp:270-297 | a keyword buff never changes the minion's type or golden flag |
| Parser.BuffAt | src/parser.hpp:245-304 | one buff, numeric or keyword, consumes text and keeps type and golden flag |
| Parser.NumericBuffAt | src/parser.hpp:246-269 | `+a/+h`, `+a attack` and `+a health` consume text and keep type and golden flag |
| Parser.KeywordBuffAt | src/parser.hpp:270-297 | the first keyword that matches consumes text and keeps type and golden flag |
| Parser.BuffsFrom | src/parser.hpp:242-309 | the buff list leaves the cursor within the line |
| Parser.ParseOneBuff | src/parser.hpp:245-304 | one round of `parse_buffs` reads the buff `BuffAt` describes; on failure the minion is unchanged and the cursor is after the spaces |
| Parser.ParseNumericBuff | src/parser.hpp:246-269 | the numeric branch reads `NumericBuffAt`; on failure the cursor is restored to the sign |
| Parser.ParseKeywordBuff | src/parser.hpp:270-297 | the keyword branch reads `KeywordBuffAt` |
| Parser.ParseBuffs | src/parser.hpp:242-309 | the loop of `parse_buffs` yields the outcome, minion and cursor of `BuffsFrom` |
| Parser.StatsAt | src/parser.hpp:316-323 | the leading `attack/health` consumes text |
| Parser.WithStats | src/parser.hpp:340-341 | the given attack and health replace the table's unless they are -1; type and golden flag stay |
| Parser.GoldenAt | src/parser.hpp:325-327 | the golden flag is set exactly when "gold" or "golden" matches |
| Parser.MinionAt | src/parser.hpp:311-347 | the minion parse leaves the cursor within the line |
| Parser.ParseStats | src/parser.hpp:316-323 | the stats branch reads `StatsAt`; on failure the cursor is restored |
| Parser.ParseMinion | src/parser.hpp:311-347 | `parse_minion` yields the outcome, minion and cursor of `MinionAt` |
| Parser.ParseNamedMinion | src/parser.hpp:324-347 | the part after the stats yields `NamedMinionAt` |
| Parser.ParseTypedMinion | src/parser.hpp:335-347 | the part from the name on yields `TypedMinionAt` |
| Parser.BuffsKeepKind | src/parser.hpp:242-309 | buffs never change which minion it is, or its golden flag |
| Parser.BuffsEndWithoutComma | src/parser.hpp:305-307 | a successful buff list ends where no comma follows |
| Parser.BuffsAtEnd | src/parser.hpp:298-300 | a buff expected at the end of the line fails and leaves the minion as it was |
| Parser.BuffsExample | src/parser.hpp:242-309 | `+2/+3, taunt` buffs both stats by 2 and 3, then sets taunt, and ends at the end of the text |
| Parser.MinionKind | src/parser.hpp:335-339 | a successful parse names a minion type of the table |
| Parser.MinionMissing | src/parser.hpp:331-334 | a line with nothing left to read has no minion, and the minion passed in comes back unchanged |
| Parser.StatsMinusOne | src/parser.hpp:312-341 | stats written `3/-1` read as health -1, the value that means "no health given", so the table's health is kept |
| BoardParser.LessIsStrictWeakOrder | src/board_parser.hpp:20-22 | `operator<` (turn, then total stats) is irreflexive and transitive, and two boards are unordered exactly when turn and total stats agree, a relation that is itself transitive: the strict weak order `std::sort` needs |
| BoardParser.MinionLineAt | src/board_parser.hpp:31-36 | `* minion` yields the minion only when it parses and the line ends after it; the cursor stays in the line |
| BoardParser.HeroLineAt | src/board_parser.hpp:38-44 | `hp [:] hero` yields a hero index inside the hero table only when a name matches and the line ends after it |
| BoardParser.NumberLineAt | src/board_parser.hpp:45-56 | `level [:] n` and `health [:] n` yield only numbers of at least 0, and only when the line ends after them |
| BoardParser.DefinitionAt | src/board_parser.hpp:28-61 | a line that is no board command leaves board and cursor as they were; every command keeps the number of slots |
| BoardParser.SettingAt | src/board_parser.hpp:37-59 | the `board`, hero, level and health commands never touch the minions; a line that is none of them leaves board and cursor |
| BoardParser.LabelledLineAt | src/board_parser.hpp:63-75 | a line that is neither `turn` nor a board command leaves board and cursor |
| BoardParser.LoadedExtends | src/board_parser.hpp:77-102 | reading a file only appends: the boards stored before are a prefix of the result |
| BoardParser.LoadedTurnsPositive | src/board_parser.hpp:92-95 | every board stored has a positive turn |
| BoardParser.LoadedNeedsSeparator | src/board_parser.hpp:92-97 | without a line starting with `=` nothing is stored, so a file's last board is dropped unless a separator follows it |
| BoardParser.BoardWithLabel.constructor | src/board_parser.hpp:13-17 | a new `BoardWithLabel` has an empty board, turn -1 and no label |
| BoardParser.ParseMinionLine | src/board_parser.hpp:33-36 | the parse of `* minion` yields `MinionLineAt` |
| BoardParser.ParseHeroLine | src/board_parser.hpp:39-44 | the parse of the hero command yields `HeroLineAt` |
| BoardParser.ParseNumberLine | src/board_parser.hpp:46-56 | the parse of the level or health command yields `NumberLineAt` |
| BoardParser.ParseBoardDefinition | src/board_parser.hpp:28-61 | `parse_board_definition` changes the board and cursor as `DefinitionAt` says, appending the minion of a `*` line, and reports whether the line was a command |
| BoardParser.ParseSetting | src/board_parser.hpp:37-60 | the `board`, hero, level and health branches change board and cursor as `SettingAt` says |
| BoardParser.ParseBoardWithLabel | src/board_parser.hpp:63-75 | `parse_board_with_label` changes board, turn, label and cursor as `LabelledLineAt` says: `turn n` sets the turn and takes the rest of the line as the label |
| BoardParser.LoadBoards | src/board_parser.hpp:77-102 | the line loop of `load_boards` stores exactly the boards `Loaded` describes |
| BoardParser.InsertBoard | src/board_parser.hpp:113 | inserting a board keeps every board and adds it |
| BoardParser.SortBoards | src/board_parser.hpp:113 | sorting keeps every board: the result is a permutation |
| BoardParser.InsertBoardSorted | src/board_parser.hpp:113 | inserting into sorted boards leaves them sorted |
| BoardParser.SortBoardsSorted | src/board_parser.hpp:113 | after `std::sort` no board is below an earlier one, and the boards are a permutation of the ones read |
| BoardParser.LoadedFilesOpen | src/board_parser.hpp:104-115 | `load_boards` over the files succeeds exactly when every file opens |
| BoardParser.LoadBoardFiles | src/board_parser.hpp:104-115 | the files are read in order, the boards sorted on success; a file that does not open returns false with the boards read so far |
| HsGame.HSGame.constructor | src/log_parser.cpp:110-115 | a new game is not a Battlegrounds game, has no entities, no game entity, no players and turn 0 |
| HsGame.HSGame.Clear | src/log_parser.cpp:117-121 | `clear()` forgets the entities, the game entity and the players and keeps the turn and the game type |
| HsGame.DecodeController | src/log_parser.cpp:123-127 | without players a controller is the player's; otherwise a controller is the enemy's exactly when "it is the first player's controller", as 0 or 1, equals that player's dummy-player tag (any other tag value makes every controller the player's) |
| HsGame.ControllerSides | src/log_parser.cpp:123-127 | with a dummy tag of 0 or 1 the first player's controller and every other controller are on opposite sides, and all other controllers on the same side |
| HsGame.IdMatchFrom | src/log_parser.cpp:138-146 | the search finds the first row carrying the id, the normal id tried before the golden one, and reports none only when no row carries it |
| HsGame.ToMinionType | src/log_parser.cpp:138-149 | the loop of `to_minion_type` yields the first matching row's type and whether the golden id matched; for an unknown id the type is `None` and the golden flag is left as it was |
| HsGame.MinionTypeOfRow | src/log_parser.cpp:138-149 | with distinct ids in the table, looking up a row's normal or golden id gives back that row's type, golden exactly for the golden id |
| HsGame.HeroMatchFrom | src/log_parser.cpp:179-186 | the search finds the first hero whose own id or whose hero power's id is the one given, and none only when no hero carries it |
| HsGame.ToHeroType | src/log_parser.cpp:179-188 | the loop of `to_hero_type` yields that hero, or 0 (`HeroType::None`) when none matches |
| HsGame.HeroTypeOfHero | src/log_parser.cpp:179-188 | with distinct ids a hero is found both by its own id and by its hero power's id |
| HsGame.CountPlay | src/log_parser.cpp:163-175 | the number of attached enchantments in play with a card id is at most the number attached |
| HsGame.WithCounters | src/log_parser.cpp:166-172 | the three deathrattle counters after the enchantments stay within their saturation bound |
| HsGame.EnchantStepCounters | src/log_parser.cpp:163-175 | one more attached entity raises only the counter its card id names, and only when it is in play |
| HsGame.AddEnchantment | src/log_parser.cpp:164-174 | one pass of the enchantment loop: a replicating-menace, golden replicating-menace or plant enchantment in play adds its summons; anything else changes nothing |
| HsGame.ApplyEnchantments | src/log_parser.cpp:163-175 | the enchantment loop raises the three counters by 3, 3 and 2 per matching enchantment in play, saturating, and changes nothing else |
| HsGame.BaseMinion | src/log_parser.cpp:151-162 | before the enchantments the converted minion has no deathrattle summons |
| HsGame.UninitialisedGolden | src/log_parser.cpp:152-154 | for an unknown card id with premium 0 the golden flag is whatever the uninitialised variable held: its two values give different minions |
| HsGame.UnknownIdNotGolden | src/log_parser.cpp:147-155 | with the flag starting out false an unknown card id gives a minion of type `None` that is golden only through the premium tag |
| HsGame.ConvertedMinion | src/log_parser.cpp:151-177 | `convert_to_minion` gives the table's type, golden from the table or the premium tag, the entity's attack and health, the table's keywords plus the entity's, and the three deathrattle counters raised by the enchantments in play |
| HsGame.ConvertToMinion | src/log_parser.cpp:151-177 | the steps of `convert_to_minion` compute that minion |
| HsGame.PlaceEntity | src/log_parser.cpp:197-212 | one entity of `to_board_state` keeps both boards at seven slots |
| HsGame.Placed | src/log_parser.cpp:194-213 | the loop over the entities keeps both boards at seven slots |
| HsGame.LastTarget | src/log_parser.cpp:199-204 | the last entity in iteration order that is a minion in play for that side and slot, or none |
| HsGame.PlacedSlot | src/log_parser.cpp:196-204 | each slot holds the converted minion of the last entity, in iteration order, that claims it, or stays empty |
| HsGame.PlacedSlotUnique | src/log_parser.cpp:196-204 | when at most one minion in play claims a slot, the slot holds exactly that minion or is empty, whatever the map's iteration order |
| HsGame.LastHero | src/log_parser.cpp:207-211 | the last entity in iteration order that is a hero in play on that side, or none |
| HsGame.PlacedHero | src/log_parser.cpp:207-211 | a side's level, health and hero come from its last hero in play, health less damage; without one they stay 0 |
| HsGame.PlaceOne | src/log_parser.cpp:197-212 | one pass of the loop changes the two boards as `PlaceEntity` says |
| HsGame.ToBoardState | src/log_parser.cpp:194-217 | `to_board_state` builds two fresh boards equal to `Placed` over the map's iteration order |
| PowerLog.Find | src/log_parser.cpp:322-324 | the first place from the cursor on where the text is written, none only when it is written nowhere after the cursor |
| PowerLog.SkipUntil | src/log_parser.cpp:322-324 | `skip_until(q)` moves past the first `q` from the cursor and succeeds, or fails and leaves the cursor |
| PowerLog.StringTo | src/log_parser.cpp:400 | the first position holding the delimiter, or the end of the line, with no delimiter before it |
| PowerLog.ParseString | src/log_parser.cpp:400-426 | `parse_string(out, d)` takes the text up to the next `d` or the end of the line and stops before it; an empty text fails |
| PowerLog.FirstExact | src/log_parser.cpp:254-277 | a chain of `match_exact` tests stops at the first name written at the cursor, and finds none only when no name is |
| PowerLog.MatchExactFirst | src/log_parser.cpp:254-277 | the chain moves the cursor past that first name, or leaves it |
| PowerLog.TagKeys | src/log_parser.cpp:279-283 | one key per tag tried, each its name followed by " value=" |
| PowerLog.SetTag | src/log_parser.cpp:286-302 | a numeric tag writes one number field and never the card id, type, zone or attachments |
| PowerLog.Attach | src/log_parser.cpp:303-315 | `ATTACHED`: when the value changes the entity records the new target, and the target, when the game has it, lists the entity among its enchantments; no other entity changes |
| PowerLog.TagValueAt | src/log_parser.cpp:250-315 | the value of a tag changes only the entity and, for `ATTACHED`, its new target; the entities stay the same set |
| PowerLog.TagAt | src/log_parser.cpp:285-317 | `parse_tag_and_value` changes only the entity and its new target |
| PowerLog.ParseTagValue | src/log_parser.cpp:250-315 | the value readers change the game and cursor as `TagValueAt` says; an enumerated value that is no known name sets the field to unknown and fails |
| PowerLog.ParseTagAndValue | src/log_parser.cpp:285-317 | `parse_tag_and_value` changes the game and cursor as `TagAt` says |
| PowerLog.ExistingIdAt | src/log_parser.cpp:319-326 | the bracketed entity reference leaves the cursor within the line |
| PowerLog.ParseExistingEntityId | src/log_parser.cpp:319-326 | `parse_existing_entity_id` reads "[", skips past " id=", reads a number and skips past "]", as `ExistingIdAt` says |
| PowerLog.Lookup | src/log_parser.cpp:500-508 | a number found in the text succeeds exactly when the game has that entity |
| PowerLog.ExistingEntityAt | src/log_parser.cpp:497-520 | an entity reference that succeeds names an entity the game has |
| PowerLog.CreateAt | src/log_parser.cpp:522-532 | `parse_create_entity` makes a new entity under the number read, which becomes the current entity, and keeps every reference to an id valid |
| PowerLog.CardIdAt | src/log_parser.cpp:424-435 | the card id tail changes only the current entity's card id |
| PowerLog.FullEntityAt | src/log_parser.cpp:418-443 | a FULL_ENTITY or SHOW_ENTITY body keeps every reference of the game valid |
| PowerLog.GameTagAt | src/log_parser.cpp:534-554 | a game-entity tag changes at most the turn and the Battlegrounds flag, and can only turn the flag off |
| PowerLog.TagChangeAt | src/log_parser.cpp:444-457 | a TAG_CHANGE line keeps references valid and does not change the current entity |
| PowerLog.BodyAt | src/log_parser.cpp:411-479 | the body of a power line keeps every reference valid |
| PowerLog.EventAt | src/log_parser.cpp:418-479 | a line outside a FULL_ENTITY block keeps every reference valid |
| PowerLog.OutlineAt | src/log_parser.cpp:458-479 | block starts and ends, CREATE_GAME, players and the game entity keep every reference valid |
| PowerLog.RegisterAt | src/log_parser.cpp:468-473 | a new player or game entity is an entity the game has |
| PowerLog.GameLineAt | src/log_parser.cpp:480-493 | a DebugPrintGame body changes at most the Battlegrounds flag |
| PowerLog.LineAt | src/log_parser.cpp:394-495 | a log line keeps every reference of the game valid |
| PowerLog.KindAt | src/log_parser.cpp:405-480 | power lines and game lines are parsed; every other line is accepted unchanged |
| PowerLog.SectionAt | src/log_parser.cpp:407-482 | the body follows the next "-" and white space |
| PowerLog.TagNamesPlain | src/log_parser.cpp:286-303 | the tag names are distinct and hold no space |
| PowerLog.TagKeyFound | src/log_parser.cpp:285-317 | the chain stops at a tag exactly when that tag's key is written there: no key is a prefix of another, so the order of the tests does not matter |
| PowerLog.NumericTagRoundTrip | src/log_parser.cpp:279-302 | "NAME value=N" read back sets that tag's field to N and changes nothing else |
| PowerLog.HeroPowerBeforeHero | src/log_parser.cpp:258-259 | `HERO_POWER` is tested before `HERO`, which is its prefix, so a hero power is not read as a hero |
| PowerLog.AttachAgain | src/log_parser.cpp:306 | repeating an `ATTACHED` value changes nothing |
| PowerLog.AttachMoves | src/log_parser.cpp:306-312 | moving an enchantment to another target leaves it listed on the old target too |
| PowerLog.ExistingIdRoundTrip | src/log_parser.cpp:319-326 | "[name id=N ...]" is read back as N, with the cursor after the closing bracket |
| PowerLog.CreatingLine | src/log_parser.cpp:418-428 | "FULL_ENTITY - Creating ID=N CardID=X" creates a fresh entity N with card id X, replacing any entity the game had under N, and makes it current |
| PowerLog.EventFullEntity | src/log_parser.cpp:418 | a body starting with FULL_ENTITY is read as one |
| PowerLog.BodyOutsideBlock | src/log_parser.cpp:411-416 | a body that is no tag line ends the FULL_ENTITY block before it is read |
| PowerLog.CardIdTail | src/log_parser.cpp:424-426 | " CardID=X" to the end of the line gives the current entity card id X |
| PowerLog.BlockContinues | src/log_parser.cpp:411-414 | a tag line while an entity is current keeps that entity current |
| PowerLog.BlockEnds | src/log_parser.cpp:415-416 | any other line, except one that creates or updates an entity, leaves no current entity |
| PowerLog.Replay | src/log_parser.cpp:604-615 | the game after the lines of a log, every reference still valid |
| PowerLog.LogParser.constructor | src/log_parser.cpp:380-383 | a new parser has an empty game and no current entity |
| PowerLog.LogParser.ParseCreateEntity | src/log_parser.cpp:522-532 | `parse_create_entity` changes game and cursor as `CreateAt` says |
| PowerLog.LogParser.ParseExistingEntity | src/log_parser.cpp:497-520 | `parse_existing_entity` yields the entity and cursor `ExistingEntityAt` gives |
| PowerLog.LogParser.ParseCardId | src/log_parser.cpp:424-435 | the card id tail changes game and cursor as `CardIdAt` says |
| PowerLog.LogParser.ParseFullEntity | src/log_parser.cpp:418-443 | the FULL_ENTITY branch changes game, current entity and cursor as `FullEntityAt` says |
| PowerLog.LogParser.OnStep | src/log_parser.cpp:556-602 | `on_step` consumes "MAIN_READY" when it follows and changes nothing else |
| PowerLog.LogParser.ParseGameEntityTagChange | src/log_parser.cpp:534-554 | `parse_game_entity_tag_change` changes game and cursor as `GameTagAt` says |
| PowerLog.LogParser.ParseTagChange | src/log_parser.cpp:444-457 | the TAG_CHANGE branch changes game and cursor as `TagChangeAt` says |
| PowerLog.LogParser.ParseBody | src/log_parser.cpp:411-479 | the body of a power line changes game, current entity and cursor as `BodyAt` says |
| PowerLog.LogParser.ParseEvent | src/log_parser.cpp:418-479 | the dispatch on FULL_ENTITY, SHOW_ENTITY and TAG_CHANGE follows `EventAt` |
| PowerLog.LogParser.ParseOutline | src/log_parser.cpp:458-479 | block lines, CREATE_GAME, players and the game entity follow `OutlineAt` |
| PowerLog.LogParser.ParseRegister | src/log_parser.cpp:468-473 | a player or game entity line follows `RegisterAt` |
| PowerLog.LogParser.ParseGameLine | src/log_parser.cpp:480-493 | a DebugPrintGame body follows `GameLineAt` |
| PowerLog.LogParser.Parse | src/log_parser.cpp:604-615 | `parse` leaves the game `Replay` describes |
| PowerLog.LogParser.ParsePowerLogLine | src/log_parser.cpp:394-495 | `parse_power_log_line` changes game, current entity and cursor as `LineAt` says |
| PowerLog.LogParser.ParseKind | src/log_parser.cpp:405-494 | the dispatch on the kind of line follows `KindAt` |
| PowerLog.LogParser.ParseSection | src/log_parser.cpp:407-482 | skipping to the body follows `SectionAt` |
| CardData.EnumFrom | scripts/generate_enum_data.py:30-42 | the name is no longer than the card name, holds only letters and digits, and starts upper case when it starts a word |
| CardData.EnumName | scripts/generate_enum_data.py:30-42 | an enumeration name is no longer than the card name and holds only letters and digits |
| CardData.ComputeEnumName | scripts/generate_enum_data.py:30-42 | the loop of `enum_name` computes `EnumName` |
| CardData.EnumFromAlnum | scripts/generate_enum_data.py:36-41 | inside a word, letters and digits are copied unchanged |
| CardData.EnumNameIdempotent | scripts/generate_enum_data.py:30-42 | `enum_name` is idempotent: an enumeration name is its own enumeration name |
| CardData.EnumNameBreak | scripts/generate_enum_data.py:34-35 | a hyphen or space ends a word: the parts on either side are named on their own |
| CardData.EnumFromKeepsAlnums | scripts/generate_enum_data.py:36-41 | the characters kept are exactly the name's letters and digits, in order, only their case may change |
| CardData.Alnums | scripts/generate_enum_data.py:36 | the letters and digits of a name, in order |
| CardData.EnumWord | scripts/generate_enum_data.py:36-41 | a word of letters and digits has its first character upper-cased and the rest copied |
| CardData.EnumWordFixed | scripts/generate_enum_data.py:36-41 | a word already capitalised is its own name |
| CardData.EnumHead | scripts/generate_enum_data.py:33-41 | what `enum_name` does with the first character of a name |
| CardData.AnnoyOTron | scripts/generate_enum_data.py:30-42 | "Annoy-o-Tron" becomes `AnnoyOTron` |
| CardData.SpawnOfNZoth | scripts/generate_enum_data.py:30-42 | "Spawn of N'Zoth" becomes `SpawnOfNZoth` |
| CardEntities.ContainsAt | scripts/generate_enum_data.py:71-108 | Python's `sub in s` holds exactly when `sub` occurs at some position of `s` |
| CardEntities.TribeNameHead | scripts/generate_enum_data.py:76-124 | a race name is never empty, and begins with a capital letter exactly when the race code is in the `tribes` table |
| CardEntities.TribeNameInjective | scripts/generate_enum_data.py:76-124 | two race codes with the same name are the same code |
| CardEntities.UntaggedCard | scripts/generate_enum_data.py:20-81 | a card without tags is a tier-1 token of tribe `None`, with no attack, health or keywords |
| CardEntities.BoolIsValueOne | scripts/generate_enum_data.py:51-52 | `get_bool` holds exactly when the tag is present with value 1 |
| CardEntities.FindCard | scripts/generate_enum_data.py:116 | `defs.find` gives the first card with the id, and nothing exactly when no card has it |
| CardEntities.Extracted | scripts/generate_enum_data.py:95-117 | every name listed in the dictionary's order has a record |
| CardEntities.ExtractData | scripts/generate_enum_data.py:85-118 | the loop of `extract_data` builds exactly the records, heroes and warnings `Extracted` describes |
| CardEntities.StepSlots | scripts/generate_enum_data.py:99-107 | one card writes at most its own slot, golden when its id contains "BaconUps"; every other slot keeps its value |
| CardEntities.SlotIsLastWrite | scripts/generate_enum_data.py:99-107 | a record's regular or golden slot is empty exactly when no kept card fills it, and otherwise holds the last card of the database that does |
| CardEntities.RecordsAreKeptNames | scripts/generate_enum_data.py:99-104 | there is a record exactly for each name of a kept minion card (a minion with a tier or an extra name, not TRLA_149), listed once in insertion order |
| CardEntities.StepWarns | scripts/generate_enum_data.py:105-106 | a duplicate is reported exactly when a card fills a slot that is already filled, naming the old and the new id |
| CardEntities.HeroesAreKeptCards | scripts/generate_enum_data.py:108-116 | the heroes are exactly the kept hero cards, in database order, each with its hero power |
| CardSort.StrLeReflexive | scripts/generate_enum_data.py:182-185 | Python's string `<=` is reflexive |
| CardSort.StrLeTotal | scripts/generate_enum_data.py:182-185 | any two strings are comparable |
| CardSort.StrLeTransitive | scripts/generate_enum_data.py:182-185 | string `<=` is transitive |
| CardSort.StrLeAntisymmetric | scripts/generate_enum_data.py:182-185 | strings below each other are equal |
| CardSort.KeyLeTotalOrder | scripts/generate_enum_data.py:182 | the key `(token, tier, name)` is a total order: non-tokens first, then by tier, then by name |
| CardSort.Insert | scripts/generate_enum_data.py:182-185 | inserting keeps every element and adds one |
| CardSort.SortBy | scripts/generate_enum_data.py:181-185 | `sorted` returns a permutation of its input |
| CardSort.InsertSorted | scripts/generate_enum_data.py:182-185 | inserting into a sorted sequence keeps it sorted |
| CardSort.SortBySorted | scripts/generate_enum_data.py:181-185 | `sorted` orders by the key |
| CardSort.InsertWithKey | scripts/generate_enum_data.py:182-185 | an inserted element goes before the others with its key |
| CardSort.SortByStable | scripts/generate_enum_data.py:181-185 | `sorted` is stable: the elements that share a key keep their order |
| CardTables.Entries | scripts/generate_enum_data.py:175-182 | reading the records through slot 0 fails exactly when a record has no regular card; otherwise one entry per record, in dictionary order |
| CardTables.WithCustomMinions | scripts/generate_enum_data.py:158-165 | `add_custom_minions` puts the "(none)" sentinel in front and the custom Mama Bear at the end, with the sorted list unchanged between them |
| CardTables.WithCustomHeroes | scripts/generate_enum_data.py:167-168 | `add_custom_heroes` puts the sentinel hero in front of the sorted heroes |
| CardTables.NoneEnumName | scripts/generate_enum_data.py:152-156 | the sentinel "(none)" is enumerated as `None` |
| CardTables.EnumNameBreakFree | scripts/generate_enum_data.py:33-41 | a trailing character that is neither a word break nor a letter or digit is dropped |
| CardTables.CStrInjective | scripts/generate_enum_data.py:242-246 | `cstr` writes different values differently |
| CardTables.CStrHead | scripts/generate_enum_data.py:242-246 | `nullptr` starts with a letter, a quoted string with a quote |
| CardTables.CBoolInjective | scripts/generate_enum_data.py:236-240 | `cbool` writes different values differently |
| CardTables.TribeCodesSorted | scripts/generate_enum_data.py:199-261 | `sorted(tribes)` lists each race code once, in ascending order |
| CardTables.TribeEnum | scripts/generate_enum_data.py:198-202 | `enum class Tribe` has one value per race code |
| CardTables.TribeNameRows | scripts/generate_enum_data.py:260-263 | `tribe_names[]` has one row per race code |
| CardTables.TribeTablesAligned | scripts/generate_enum_data.py:198-263 | `tribe_names[t]` is the quoted name of enumerator `t`, and both have `Tribe_count` entries |
| CardTables.EnumLinesSnoc | scripts/generate_enum_data.py:209-219 | the lines of one more entry are those before it and then its block |
| CardTables.WriteMinionEnum | scripts/generate_enum_data.py:207-220 | the loop over the minions, with its running tier, writes `EnumLines` |
| CardTables.ValuesAppend | scripts/generate_enum_data.py:219 | the values of two runs of lines are the values of each, in order |
| CardTables.EnumValuesAligned | scripts/generate_enum_data.py:207-221 | `MinionType` lists one value per entry, in list order, so value `i` names entry `i` |
| CardTables.ValuesBlock | scripts/generate_enum_data.py:211-219 | one entry's lines hold its value and nothing else |
| CardTables.ValuesOne | scripts/generate_enum_data.py:219 | a single line holds a value exactly when it is one |
| CardTables.EnumLinesAreBlocks | scripts/generate_enum_data.py:209-219 | entry `i`'s group comment comes before its value exactly when its tier differs from the previous entry's (from 0 for the first), and names tokens, custom or the tier |
| CardTables.EnumLinesPrefix | scripts/generate_enum_data.py:209-219 | the lines of a prefix of the list begin the lines of the list |
| CardTables.MinionRows | scripts/generate_enum_data.py:268-278 | `minion_info[]` has one row per entry |
| CardTables.GoldenIdRow | scripts/generate_enum_data.py:272 | the golden id column is `nullptr` exactly when the record has no golden card, and its quoted id otherwise |
| CardTables.ListValues | scripts/generate_enum_data.py:300-303 | one value per selected entry |
| CardTables.WriteMinionList | scripts/generate_enum_data.py:298-307 | the loop of `write_minion_list` writes the values of exactly the entries passing the filter, in list order |
| CardTables.SelectedPass | scripts/generate_enum_data.py:283-287 | every list holds only entries passing its filter, none of them a token, each taken from the minion list |
| CardTables.HeroRows | scripts/generate_enum_data.py:292-296 | `hero_info[]` cannot be written exactly when a hero's power card is missing from the database; otherwise one row per hero |
| CardTables.MinionList | scripts/generate_enum_data.py:316-317 | the final minion list holds at least the two custom entries |
| CardTables.GenerateFails | scripts/generate_enum_data.py:313-322 | the generator stops with an error exactly when a record has no regular card or a hero's power card is missing |
| CardTables.MinionTablesAligned | scripts/generate_enum_data.py:207-278 | value `i` of `MinionType` is the enumeration name of the name in row `i` of `minion_info[]`, and both have one line per entry |
| CardTables.GeneratedMinionTables | scripts/generate_enum_data.py:313-322 | what the generator writes for the minions is the enumeration and rows of the final minion list, and `MinionType_count` its length |
| CardTables.MinionListEnds | scripts/generate_enum_data.py:158-165 | the final minion list begins with the sentinel and ends with the custom Mama Bear |
| CardTables.GeneratedMinionsAligned | scripts/generate_enum_data.py:207-278 | `MinionType_count` counts both the enumeration and `minion_info[]`, the sentinel is value 0 and row 0, and Mama Bear is the last entry |
| CardTables.NoneRow | scripts/generate_enum_data.py:152-156 | the sentinel row is named "(none)", has no ids, tier 0, no tribe, no stats and no keywords, and its value is `None` |
| CardTables.GeneratedMinionsSorted | scripts/generate_enum_data.py:181-182 | between the sentinel and Mama Bear the minion list is the extracted records ordered by (token, tier, name), records with equal keys in dictionary order |
| CardTables.GeneratedHeroesSorted | scripts/generate_enum_data.py:184-185 | the hero list is the sentinel hero, then the kept heroes ordered by name, equal names in database order |
| Boards.Board.DireWolfAura | src/minion_events.cpp:9-11 | Dire Wolf Alpha's branch gives its living neighbours +1 attack, doubled when golden, as `AuraFrom` says |
| Boards.Board.OthersAura | src/minion_events.cpp:12-33 | the branches for Murloc Warleader, Phalanx Commander, Siegebreaker and Mal'Ganis buff the other minions that pass their test, as `AuraFrom` says |
| Boards.ApplyGainsKeepsPermanentState | src/board.hpp:313-317 | recomputing auras changes no type, keyword or permanent stat: clearing the aura afterwards gives what it gave before |

## Left out

- BattleRules.CheckForDeaths: the passes of `check_for_deaths` (src/battle.cpp:145-195) are bounded by `fuel`. When the fuel runs out, the dead of the last sweep are removed without their death effects. The source loops until no minion dies, and its termination is not proved here.
- BattleRules.Run: `run()` (src/battle.cpp:9-13) is bounded by `rounds`. Two boards whose minions all have 0 attack never finish in the source, and the model stops after `rounds` rounds. The source has no draw rule to compare with, so this is not claimed as a defect.
- Battles.Battle.Run: bounded by `maxRounds` for the same reason as BattleRules.Run.
- BattleRules.Recompute: the enemy-board term of Old Murk-Eye's aura (src/minion_events.cpp:19-21) is left out. Inside a battle `recompute_auras` is called without an enemy board, so this only matters for the log parser's final recompute, which is left out as well.
- BattleRules.NewBattle: computes the auras of each board without the enemy board, as BattleRules.Recompute does.
- Boards.Board.LowestAttackTarget: on an empty board the source calls `random(0)`, a division by zero (src/board.hpp:237). The model answers -1 and leaves the generator alone.
- Rng.RNG.Random: requires a positive range. `random(0)` divides by zero in the source.
- BattleRules.DeathrattleRounds: `do_base_deathrattle` is declared in src/battle.hpp:84 but defined in no file of this model. It is taken to be `Minion::do_deathrattle` (src/minion_events.cpp:46-149) without the extra summons at its end (145-149), so those summons happen once per round, as src/battle.cpp:225-228 writes them.
- MinionEvents.OnFriendlySummon: Crowd Favorite's branch for a played minion (src/minion_events.cpp:176-182) reads a battlecry flag the information table here does not carry. The battle only summons and never plays.
- CardData.EnumName: characters are compared as ASCII. Python's Unicode `isalnum` and `upper` are not modelled.
- Simulation.OptimizeMinionOrder.constructor: the orders after the identity order and the score of an order are parameters. Producing the orders with `next_permutation`, and scoring by simulation with floating point, are not modelled.
- HsGame.ToBoardState: the hero power's `used` flag (src/log_parser.cpp:205-206) is dropped, because the board here has no `use_hero_power` field. The final `recompute_auras` with the enemy board (src/log_parser.cpp:214-216) is left out, because placing minions by zone position can leave gaps in the board.
- HsGame.ConvertedMinion: `invalid_aura` (src/log_parser.cpp:158) is not modelled, because the board here has no such flag.
- BoardParser.ParseSetting: `use_hero_power` (src/board_parser.hpp:43) is not set, because the board here has no such field.
- BoardParser.ParseBoardWithLabel: `use_hero_power` is not set, for the same reason.
- Parser.ScanInt: `sscanf("%d")` is given as a function of the text. Its behaviour on numbers that overflow `int` is not modelled.
- Minions.Empty: the fields that the C++ default constructor leaves uninitialised are set to 0 or false.
- MinionArrays: the constructors from an `initializer_list` and a `vector` are not modelled. The battle and the parsers do not use them.
- Minions: the bit-field widths of the C++ struct are not modelled. Attack and health are unbounded integers.
- Simulation: the floating-point statistics of `ScoreSummary` (src/simulation.hpp:42-48, 70-100) are not modelled. Neither are printing, the REPL, the tests, the benchmarks or the wording of error messages.
- Parser: `match_objective` and `parse_objective` (src/parser.hpp:206-214, 232-238) are not modelled. They serve the command line, not the battle.
- PowerLog: `parse_timestamp` (src/log_parser.cpp:234-244), the printing in `on_step`, and the file reading of `main` and `do_run` are left out.
- KeyedRng.KeyedRNG.Random: the program exit on an exhausted key is the answer `None`.
- LowVariance.FastLowVarianceRNG: it is modelled from its definitions in src/random.cpp. Its class declaration is not in the files of this model, so the field layout follows its use.
- BoardParser.SortBoards: `std::sort` is not stable. The model fixes one order, an insertion sort, among boards that compare equal. The result is proved sorted and a permutation of the input.
- BoardParser.LoadBoardFiles: a file that cannot be opened is `None`. Reading it is left out.
- CardEntities: the card database XML is given as already-read records. XML parsing is not modelled.
- CardTables.Generate: a record with only a golden card, or a hero without a hero power card, stops the Python script with an exception. The model answers `None`.
- BattleProperties.DamageAllQuiet: proved only for boards where no minion summons when damaged. Imp Gang Boss and Security Rover summon to the right of themselves (src/minion_events.cpp:226-233), and `damage_all` then reaches the summoned minions and the shifted ones in later slots. `BattleRules.DamageAll` models that loop on every board, but what it does to such a board is not stated as a lemma.
- BattleProperties.NefarianHitsEveryEnemy: proved only for enemy boards where no minion summons when damaged, for the reason given under BattleProperties.DamageAllQuiet.
- PowerLog.CreateAt: when the id already exists, the source reports "Entity already exists" and replaces the entity, and pointers to the old entity dangle (src/log_parser.cpp:522-532). In the model every reference is an id, so such references silently name the new entity.
- Parser: `match_hero_power` and `parse_hero_power` (src/parser.hpp:196-204, 224-230) are not modelled. Only the REPL uses them (src/repl.cpp:140), and the board parser reads heroes through `parse_hero_type`.
- Strings are sequences of characters. The UTF-8 encoding of the files is not modelled.

## Findings

| source | as written | input that shows it | evidently intended | confidence | as-written member | corrected member |
|---|---|---|---|---|---|---|
| src/board.hpp:186 | a tracked position moves right when the insert position is at or after it | a board of two minions with position 0 tracked, and an insert at 1: the tracked position becomes 1, the inserted minion | a tracked position moves right when it is at or after the insert position, so it keeps naming the same minion | not executed | Boards.InsertAsWrittenLosesTrackedMinion | Boards.InsertFollowsTrackedMinion |
| src/battle.cpp:33 | the second windfury attack needs a tracked position above 0 | a windfury attacker in slot 0 that survives its first attack gets no second attack | the second attack needs the attacker alive, that is a tracked position of 0 or more | not executed | BattleProperties.WindfuryTestsDiffer | BattleRules.AttackRound |
| src/battle.cpp:46-58 | the defender is read from the enemy board without checking that it has a minion | a windfury attacker whose first attack kills the last enemy minion: the second attack reads slot -1 | an attack on an empty board does nothing | not executed | BattleRules.DefenderIndexOnEmptyBoard | BattleRules.SingleAttackBy |
| src/simulation.hpp:102-107 | the percentile divides by the number of results less one | `percentile(1, {0, 1})` gives 150; one result divides by zero | a number from 0 to 100 that grows with the score | not executed | Simulation.PercentileAbove100 | Simulation.PercentileCorrectedMonotone |
| src/log_parser.cpp:152-154 | `golden` is read before `to_minion_type` sets it when the card id is unknown | an entity with an unknown card id and no premium tag comes out golden or not depending on stack garbage | an unknown card is golden only through the premium tag | not executed | HsGame.UninitialisedGolden | HsGame.UnknownIdNotGolden |

