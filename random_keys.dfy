// src/random_keys.hpp: the keys a keyed generator is asked with, and picking a list element.
module RandomKeys {
  import opened Util
  import opened Rng
  import opened KeyedRng

  /** `RNGType`, numbered from 1. */
  datatype RngType =
    | OneCostMinion | TwoCostMinion | FourCostMinion | LegendaryMinion | DeathrattleMinion
    | FirstPlayer | Damage | Attack | GiveDivineShield | Buff

  function Ordinal(t: RngType): (r: int)
    ensures 1 <= r <= 10
  {
    match t
    case OneCostMinion => 1
    case TwoCostMinion => 2
    case FourCostMinion => 3
    case LegendaryMinion => 4
    case DeathrattleMinion => 5
    case FirstPlayer => 6
    case Damage => 7
    case Attack => 8
    case GiveDivineShield => 9
    case Buff => 10
  }

  function FromOrdinal(k: int): (r: Option<RngType>)
    ensures r.Some? <==> 1 <= k <= 10
  {
    if k == 1 then Some(OneCostMinion)
    else if k == 2 then Some(TwoCostMinion)
    else if k == 3 then Some(FourCostMinion)
    else if k == 4 then Some(LegendaryMinion)
    else if k == 5 then Some(DeathrattleMinion)
    else if k == 6 then Some(FirstPlayer)
    else if k == 7 then Some(Damage)
    else if k == 8 then Some(Attack)
    else if k == 9 then Some(GiveDivineShield)
    else if k == 10 then Some(Buff)
    else None
  }

  /** The ordinals are the consecutive numbers 1 to 10, one per type. */
  lemma OrdinalRoundTrip(t: RngType, k: int)
    ensures FromOrdinal(Ordinal(t)) == Some(t)
    ensures 1 <= k <= 10 ==> Ordinal(FromOrdinal(k).value) == k
  {
  }

  /** A player is 0 or 1. */
  type Player = p: int | 0 <= p <= 1

  /** An amount or attacker type whose field, shifted by 9, stays below the sign bit of a
      32-bit `int`. */
  const FieldLimit: nat := 0x40_0000

  /** `x << k` on a non-negative value that does not overflow: `k` doublings. */
  function Shl(x: nat, k: nat): nat {
    if k == 0 then x else 2 * Shl(x, k - 1)
  }

  /** Bitwise exclusive or of two non-negative integers, lowest bit first. */
  function Xor(a: nat, b: nat): nat
    decreases a + b
  {
    if a == 0 then b
    else if b == 0 then a
    else 2 * Xor(a / 2, b / 2) + (a + b) % 2
  }

  lemma XorDef(a: nat, b: nat)
    ensures Xor(a, b) == if a == 0 then b else if b == 0 then a else 2 * Xor(a / 2, b / 2) + (a + b) % 2
  {
  }

  /** The low bit of a xor and the xor of the rest, also when an operand is 0. */
  lemma XorUnfold(a: nat, b: nat)
    ensures Xor(a, b) == 2 * Xor(a / 2, b / 2) + (a + b) % 2
    ensures Xor(a, b) / 2 == Xor(a / 2, b / 2) && Xor(a, b) % 2 == (a + b) % 2
  {
    hide Xor;
    XorDef(a, b);
    if a == 0 {
      XorDef(0, b / 2);
    } else if b == 0 {
      XorDef(a / 2, 0);
    }
  }

  lemma XorZero(a: nat)
    ensures Xor(0, a) == a && Xor(a, 0) == a
  {
    hide Xor;
    XorDef(0, a);
    XorDef(a, 0);
  }

  lemma {:induction false} XorAssoc(a: nat, b: nat, c: nat)
    ensures Xor(Xor(a, b), c) == Xor(a, Xor(b, c))
    decreases a + b + c
  {
    hide Xor;
    XorZero(0);
    if a + b + c > 0 {
      var ab := Xor(a, b);
      var bc := Xor(b, c);
      XorAssoc(a / 2, b / 2, c / 2);
      XorUnfold(a, b);
      XorUnfold(b, c);
      XorUnfold(ab, c);
      XorUnfold(a, bc);
      assert (ab + c) % 2 == (a + bc) % 2 by {
        assert ab == 2 * (ab / 2) + (a + b) % 2;
        assert bc == 2 * (bc / 2) + (b + c) % 2;
      }
    }
  }

  /** Fields that do not overlap: xor is addition. */
  lemma {:induction false} XorDisjoint(a: nat, b: nat, k: nat)
    requires a < Shl(1, k)
    ensures Xor(a, Shl(b, k)) == a + Shl(b, k)
    decreases k
  {
    hide Xor;
    XorZero(Shl(b, k));
    if k > 0 && a > 0 {
      var s := Shl(b, k);
      assert s == 2 * Shl(b, k - 1);
      XorDisjoint(a / 2, b, k - 1);
      XorUnfold(a, s);
      assert s / 2 == Shl(b, k - 1) && (a + s) % 2 == a % 2;
    }
  }

  /** Shifting both operands shifts the xor. */
  lemma {:induction false} XorShift(a: nat, b: nat, k: nat)
    ensures Xor(Shl(a, k), Shl(b, k)) == Shl(Xor(a, b), k)
    decreases k
  {
    hide Xor;
    if k > 0 {
      var sa := Shl(a, k);
      var sb := Shl(b, k);
      assert sa == 2 * Shl(a, k - 1) && sb == 2 * Shl(b, k - 1);
      XorShift(a, b, k - 1);
      XorUnfold(sa, sb);
      assert sa / 2 == Shl(a, k - 1) && sb / 2 == Shl(b, k - 1) && (sa + sb) % 2 == 0;
    }
  }

  lemma ShlConstants(p: nat, a: nat)
    ensures Shl(1, 8) == 256 && Shl(1, 9) == 512
    ensures Shl(p, 8) == 256 * p && Shl(a, 9) == 512 * a
  {
    assert Shl(p, 1) == 2 * p && Shl(a, 1) == 2 * a && Shl(1, 1) == 2;
    assert Shl(p, 3) == 8 * p && Shl(a, 3) == 8 * a && Shl(1, 3) == 8;
    assert Shl(p, 5) == 32 * p && Shl(a, 5) == 32 * a && Shl(1, 5) == 32;
    assert Shl(p, 7) == 128 * p && Shl(a, 7) == 128 * a && Shl(1, 7) == 128;
  }

  /** `rng_key(type)`. */
  function Key(t: RngType): (r: int)
    ensures FromOrdinal(r) == Some(t)
  {
    OrdinalRoundTrip(t, 0);
    Ordinal(t)
  }

  /** `rng_key(type, player)`. */
  function PlayerKey(t: RngType, player: Player): nat {
    Xor(Ordinal(t), Shl(player, 8))
  }

  /** `rng_key(type, player, amount)`. */
  function AmountKey(t: RngType, player: Player, amount: nat): nat
    requires amount < FieldLimit
  {
    Xor(Xor(Ordinal(t), Shl(player, 8)), Shl(amount, 9))
  }

  /** `rng_key(type, player, attacker)`, the attacker given by its type's ordinal and whether it
      is golden. */
  function AttackerKey(t: RngType, player: Player, attackerType: nat, golden: bool): nat
    requires attackerType < FieldLimit
  {
    Xor(Xor(Xor(Ordinal(t), Shl(player, 8)), Shl(attackerType, 9)), Shl(if golden then 1 else 0, 9))
  }

  /** The fields of an amount key do not overlap, so it is their sum and each can be read back:
      the type from the low byte, the player from bit 8, the amount from the bits above; it stays
      below the sign bit. A player key is the amount key with amount 0. */
  lemma AmountKeyDecodes(t: RngType, player: Player, amount: nat)
    requires amount < FieldLimit
    ensures var k := AmountKey(t, player, amount);
      && k == Ordinal(t) + 256 * player + 512 * amount
      && FromOrdinal(k % 256) == Some(t)
      && (k / 256) % 2 == player
      && k / 512 == amount
      && k < 0x8000_0000
    ensures PlayerKey(t, player) == AmountKey(t, player, 0)
  {
    hide Xor;
    hide Shl;
    OrdinalRoundTrip(t, 0);
    ShlConstants(player, amount);
    ShlConstants(player, 0);
    var o := Ordinal(t);
    XorDisjoint(o, player, 8);
    var base := o + 256 * player;
    XorDisjoint(base, amount, 9);
    XorZero(PlayerKey(t, player));
    var k := base + 512 * amount;
    assert k == o + 256 * (player + 2 * amount);
    assert k % 256 == o && k / 256 == player + 2 * amount;
    assert k / 512 == amount;
  }

  /** Different requests get different keys. */
  lemma AmountKeyInjective(t1: RngType, p1: Player, a1: nat, t2: RngType, p2: Player, a2: nat)
    requires a1 < FieldLimit && a2 < FieldLimit
    ensures AmountKey(t1, p1, a1) == AmountKey(t2, p2, a2) <==> t1 == t2 && p1 == p2 && a1 == a2
  {
    AmountKeyDecodes(t1, p1, a1);
    AmountKeyDecodes(t2, p2, a2);
  }

  /** The golden flag is xored into the same bit as the lowest bit of the attacker's type: the
      key of a golden attacker is the key of the plain attacker whose ordinal differs in that
      bit, so those two attackers share their permutations. A plain attacker's key is the amount
      key of its ordinal. */
  lemma AttackerKeyGoldenCollides(t: RngType, player: Player, attackerType: nat)
    requires attackerType < FieldLimit
    ensures var other := Xor(attackerType, 1);
      && other < FieldLimit && other != attackerType
      && AttackerKey(t, player, attackerType, true) == AttackerKey(t, player, other, false)
    ensures AttackerKey(t, player, attackerType, false) == AmountKey(t, player, attackerType)
  {
    hide Xor;
    var base := Xor(Ordinal(t), Shl(player, 8));
    var other := Xor(attackerType, 1);
    XorUnfold(attackerType, 1);
    XorZero(attackerType / 2);
    XorZero(Xor(base, Shl(other, 9)));
    XorZero(Xor(base, Shl(attackerType, 9)));
    assert Shl(0, 9) == 0 && Shl(1, 9) == 512 by {
      ShlConstants(0, 1);
    }
    XorAssoc(base, Shl(attackerType, 9), Shl(1, 9));
    XorShift(attackerType, 1, 9);
  }

  /** What `random_element` yields: the element, and the generator's new table and state. */
  datatype Picked<A> = Picked(value: A, table: map<Header, KeyEntry>, rng: State) | PickExited

  /** `random_element(list, rng, key)`: the element at the index drawn with the list's size. */
  function RandomElement<A>(list: seq<A>, t: map<Header, KeyEntry>, st: State, key: int): (r: Picked<A>)
    requires |list| > 0 && KeyedValid(t)
    ensures r.Picked? ==> r.value in list && KeyedValid(r.table)
    ensures r.PickExited? <==> KeyedRandom(t, st, key, |list|).Exited?
    ensures |list| == 1 ==> r == Picked(list[0], t, st)
  {
    KeyedRandomInRange(t, st, key, |list|);
    var d := KeyedRandom(t, st, key, |list|);
    if d.Exited? then PickExited else Picked(list[d.value], d.table, d.rng)
  }
}
