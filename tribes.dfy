// src/tribe.hpp: the closed set of minion tribes.
module Tribes {

  /** Declared in this order, so the ordinals are None = 0, ..., All = 6. */
  datatype Tribe = None | Beast | Demon | Dragon | Mech | Murloc | All

  const TribeCount := 7

  function Ordinal(t: Tribe): (k: nat)
    ensures k < TribeCount
    ensures t == Tribe.None <==> k == 0
    ensures t == All <==> k == 6
  {
    match t
    case None => 0
    case Beast => 1
    case Demon => 2
    case Dragon => 3
    case Mech => 4
    case Murloc => 5
    case All => 6
  }

  function FromOrdinal(k: nat): (t: Tribe)
    requires k < TribeCount
    ensures Ordinal(t) == k
  {
    if k == 0 then Tribe.None
    else if k == 1 then Beast
    else if k == 2 then Demon
    else if k == 3 then Dragon
    else if k == 4 then Mech
    else if k == 5 then Murloc
    else All
  }

  /** The ordinals number the tribes one-to-one. */
  lemma OrdinalInjective(t: Tribe, u: Tribe)
    ensures Ordinal(t) == Ordinal(u) ==> t == u
    ensures FromOrdinal(Ordinal(t)) == t
  {
  }

  /** A minion of tribe `t` counts as a `query` minion: "All" (amalgams) is every tribe. */
  predicate HasTribe(t: Tribe, query: Tribe) {
    t == All || t == query
  }

  lemma AllHasEveryTribe(query: Tribe)
    ensures HasTribe(All, query)
  {
  }

  lemma HasTribeReflexive(t: Tribe)
    ensures HasTribe(t, t)
  {
  }

  /** Apart from All, a tribe matches only itself; in particular no other tribe answers to All. */
  lemma HasTribeExact(t: Tribe, query: Tribe)
    requires t != All
    ensures HasTribe(t, query) <==> query == t
    ensures !HasTribe(t, All)
  {
  }

  /** `name(t)` reads the tribe-name table at the tribe's ordinal. */
  function Name(tribeNames: seq<string>, t: Tribe): (name: string)
    requires |tribeNames| == TribeCount
    ensures name == tribeNames[Ordinal(t)]
    ensures t == Tribe.None ==> name == tribeNames[0]
  {
    tribeNames[Ordinal(t)]
  }
}
