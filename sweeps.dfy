// The first half of `Battle::check_for_deaths` (src/battle.cpp): one board is swept for dead
// minions, the survivors close ranks, the next attacker and the tracked positions follow them,
// and the dead are collected with the position at which they died. `SweepFrom` follows the loop
// statement by statement; `Compacted`, `Renumbered` and `DeadPositions` say what it computes.
module Sweeps {
  import opened Util
  import opened Minions
  import opened MinionArrays
  import opened Boards

  /** The loop's variables: the board, its next attacker and tracked positions, the write
      index `next` of the source, and the dead minions with their positions. */
  datatype Sweep = Sweep(slots: seq<Minion>, next: int, track: seq<int>, write: nat,
                         dead: seq<Minion>, positions: seq<int>)

  /** Every tracked position equal to `from` becomes `to`. */
  function Relabel(ts: seq<int>, from: int, to: int): (r: seq<int>)
    ensures |r| == |ts|
  {
    seq(|ts|, j requires 0 <= j < |ts| => if ts[j] == from then to else ts[j])
  }

  /** One iteration for slot `i`. */
  function SweepStep(w: Sweep, i: nat): (r: Sweep)
    requires w.write <= i < |w.slots|
    ensures |r.slots| == |w.slots| && |r.track| == |w.track| && r.write <= i + 1
  {
    var next := if w.next == i then w.write else w.next;
    var m := w.slots[i];
    if Dead(m) then
      w.(next := next, track := Relabel(w.track, i, -1),
         dead := w.dead + [m], positions := w.positions + [w.write])
    else if w.write < i then
      w.(next := next, slots := w.slots[w.write := m], track := Relabel(w.track, i, w.write),
         write := w.write + 1)
    else
      w.(next := next, write := w.write + 1)
  }

  /** The loop from slot `i` while slots exist. */
  function SweepFrom(w: Sweep, i: nat): (r: Sweep)
    requires w.write <= i <= |w.slots|
    ensures |r.slots| == |w.slots| && |r.track| == |w.track| && r.write <= |r.slots|
    decreases |w.slots| - i
  {
    if i < |w.slots| && Exists(w.slots[i]) then SweepFrom(SweepStep(w, i), i + 1) else w
  }

  /** The sweep of one board, then the second loop that clears the stale copies left behind
      the survivors. */
  function SweepBoard(slots: seq<Minion>, next: int, track: seq<int>): Sweep {
    var w := SweepFrom(Sweep(slots, next, track, 0, [], []), 0);
    w.(slots := ClearedBetween(w.slots, w.write, EmptyFrom(w.slots, w.write)))
  }

  /** The first loop of `check_for_deaths` on one board, step by step. */
  method SweepLoop(slots: seq<Minion>, next: int, track: seq<int>) returns (w: Sweep)
    ensures w == SweepFrom(Sweep(slots, next, track, 0, [], []), 0)
  {
    w := Sweep(slots, next, track, 0, [], []);
    ghost var start := w;
    var i := 0;
    while i < |w.slots| && Exists(w.slots[i])
      invariant w.write <= i <= |w.slots| == |slots|
      invariant SweepFrom(w, i) == SweepFrom(start, 0)
      decreases |w.slots| - i
    {
      w := SweepStep(w, i);
      i := i + 1;
    }
  }

  /** The second loop: the stale copies from the write index up to the first empty slot are
      cleared. */
  method ClearBehind(slots: seq<Minion>, write: nat) returns (r: seq<Minion>)
    requires write <= |slots|
    ensures r == ClearedBetween(slots, write, EmptyFrom(slots, write))
  {
    r := slots;
    var k := write;
    while k < |r| && Exists(r[k])
      invariant write <= k <= |slots| == |r|
      invariant forall j :: write <= j < k ==> Exists(slots[j])
      invariant r == ClearedBetween(slots, write, k)
      decreases |slots| - k
    {
      ClearedBetweenStep(slots, write, k);
      r := r[k := Clear(r[k])];
      k := k + 1;
    }
    EmptyFromUnique(slots, write, k);
  }

  // ---------------------------------------------------------------------------
  // What the sweep computes

  function Survivors(s: seq<Minion>): seq<Minion> { Filter(Live(s), NotDead) }

  function Casualties(s: seq<Minion>): seq<Minion> { Filter(Live(s), Dead) }

  /** The survivors in order, then the cleared slots of the old prefix, then the empty rest. */
  function Compacted(s: seq<Minion>): (r: seq<Minion>)
    ensures |r| == |s|
  {
    var surv := Survivors(s);
    seq(|s|, j requires 0 <= j < |s| =>
      if j < |surv| then surv[j] else if j < SizeOf(s) then Clear(s[j]) else s[j])
  }

  /** A tracked position after the sweep: lost (-1) for a dead minion, else the number of
      survivors before it; positions outside the prefix are left alone. */
  function Renumbered(s: seq<Minion>, t: int): int {
    if 0 <= t < SizeOf(s) then (if Dead(s[t]) then -1 else Count(s[..t], NotDead)) else t
  }

  /** The next attacker after the sweep: a dead next attacker hands over to the survivor after
      it. */
  function NextRenumbered(s: seq<Minion>, n: int): int {
    if 0 <= n < SizeOf(s) then Count(s[..n], NotDead) else n
  }

  /** For each dead minion, the number of survivors before it: where its deathrattle summons. */
  function DeadPositions(s: seq<Minion>): (r: seq<int>)
    ensures |r| == Count(s, Dead)
  {
    if s == [] then []
    else
      var t := s[..|s| - 1];
      DeadPositions(t) + (if Dead(s[|s| - 1]) then [Count(t, NotDead)] else [])
  }

  function RenumberedAll(s: seq<Minion>, ts: seq<int>): (r: seq<int>)
    ensures |r| == |ts|
  {
    seq(|ts|, j requires 0 <= j < |ts| => Renumbered(s, ts[j]))
  }

  // ---------------------------------------------------------------------------
  // The loop computes the closed forms

  /** The loop's state after the first `i` slots of `s`, one variable group at a time. */
  ghost predicate SlotsUpTo(s: seq<Minion>, w: Sweep, i: nat)
    requires i <= |s|
  {
    && |w.slots| == |s|
    && w.write == Count(s[..i], NotDead) <= i
    && w.slots == Filter(s[..i], NotDead) + s[w.write..]
  }

  ghost predicate NextUpTo(s: seq<Minion>, next: int, w: Sweep, i: nat)
    requires i <= |s|
  {
    w.next == if 0 <= next < i then Count(s[..next], NotDead) else next
  }

  ghost predicate TrackUpTo(s: seq<Minion>, ts: seq<int>, w: Sweep, i: nat)
    requires i <= |s|
  {
    && |w.track| == |ts|
    && forall j :: 0 <= j < |ts| ==>
         w.track[j] == if 0 <= ts[j] < i then (if Dead(s[ts[j]]) then -1 else Count(s[..ts[j]], NotDead))
                       else ts[j]
  }

  ghost predicate DeadUpTo(s: seq<Minion>, w: Sweep, i: nat)
    requires i <= |s|
  {
    w.dead == Filter(s[..i], Dead) && w.positions == DeadPositions(s[..i])
  }

  ghost predicate SweptUpTo(s: seq<Minion>, next: int, ts: seq<int>, w: Sweep, i: nat)
    requires i <= |s|
  {
    SlotsUpTo(s, w, i) && NextUpTo(s, next, w, i) && TrackUpTo(s, ts, w, i) && DeadUpTo(s, w, i)
  }

  lemma SweepStart(s: seq<Minion>, next: int, ts: seq<int>)
    ensures SweptUpTo(s, next, ts, Sweep(s, next, ts, 0, [], []), 0)
  {
    assert s[..0] == [];
  }

  /** The slot the loop reads at step `i` is still the original one. */
  lemma SweepReads(s: seq<Minion>, w: Sweep, i: nat)
    requires i < |s| && SlotsUpTo(s, w, i)
    ensures w.slots[i] == s[i]
  {
    var f := Filter(s[..i], NotDead);
    assert w.slots[i] == (f + s[w.write..])[i];
  }

  /** A position below `i` is renumbered to something below `i`. */
  lemma RenumberedBelow(s: seq<Minion>, t: nat, i: nat)
    requires t < i <= |s|
    ensures Count(s[..t], NotDead) < i
  {
  }

  lemma StepSlots(s: seq<Minion>, w: Sweep, i: nat)
    requires i < |s| && SlotsUpTo(s, w, i)
    ensures SlotsUpTo(s, SweepStep(w, i), i + 1)
  {
    SweepReads(s, w, i);
    var r := SweepStep(w, i);
    var f := Filter(s[..i], NotDead);
    CountSnoc(s, i, NotDead);
    FilterSnoc(s, i, NotDead);
    if !Dead(s[i]) {
      if w.write < i {
        assert r.slots == f + [s[i]] + s[w.write + 1..];
      } else {
        assert s[w.write..] == [s[i]] + s[w.write + 1..];
      }
    }
  }

  lemma StepNext(s: seq<Minion>, next: int, w: Sweep, i: nat)
    requires i < |s| && SlotsUpTo(s, w, i) && NextUpTo(s, next, w, i)
    ensures NextUpTo(s, next, SweepStep(w, i), i + 1)
  {
    if 0 <= next < i {
      RenumberedBelow(s, next, i);
    }
  }

  lemma StepTrack(s: seq<Minion>, ts: seq<int>, w: Sweep, i: nat)
    requires i < |s| && SlotsUpTo(s, w, i) && TrackUpTo(s, ts, w, i)
    ensures TrackUpTo(s, ts, SweepStep(w, i), i + 1)
  {
    SweepReads(s, w, i);
    var r := SweepStep(w, i);
    forall j | 0 <= j < |ts|
      ensures r.track[j] == if 0 <= ts[j] < i + 1 then (if Dead(s[ts[j]]) then -1 else Count(s[..ts[j]], NotDead))
                            else ts[j]
    {
      if 0 <= ts[j] < i {
        RenumberedBelow(s, ts[j], i);
      }
    }
  }

  lemma StepDead(s: seq<Minion>, w: Sweep, i: nat)
    requires i < |s| && SlotsUpTo(s, w, i) && DeadUpTo(s, w, i)
    ensures DeadUpTo(s, SweepStep(w, i), i + 1)
  {
    SweepReads(s, w, i);
    FilterSnoc(s, i, Dead);
    assert s[..i + 1][..i] == s[..i];
  }

  lemma StepKeeps(s: seq<Minion>, next: int, ts: seq<int>, w: Sweep, i: nat)
    requires i < |s| && SweptUpTo(s, next, ts, w, i)
    ensures SweptUpTo(s, next, ts, SweepStep(w, i), i + 1)
  {
    StepSlots(s, w, i);
    StepNext(s, next, w, i);
    StepTrack(s, ts, w, i);
    StepDead(s, w, i);
  }

  lemma {:induction false} SweepFromReaches(s: seq<Minion>, next: int, ts: seq<int>, w: Sweep, i: nat)
    requires LivePrefix(s) && i <= SizeOf(s) && SweptUpTo(s, next, ts, w, i)
    ensures SweptUpTo(s, next, ts, SweepFrom(w, i), SizeOf(s))
    decreases |s| - i
  {
    if i < SizeOf(s) {
      assert Exists(w.slots[i]) by { SweepReads(s, w, i); }
      StepKeeps(s, next, ts, w, i);
      SweepFromReaches(s, next, ts, SweepStep(w, i), i + 1);
    } else if i < |s| {
      assert !Exists(w.slots[i]) by { SweepReads(s, w, i); }
    }
  }

  /** The second loop turns the swept slots into the compacted board. */
  lemma ClearedIsCompacted(s: seq<Minion>, w: Sweep)
    requires LivePrefix(s) && SlotsUpTo(s, w, SizeOf(s))
    ensures ClearedBetween(w.slots, w.write, EmptyFrom(w.slots, w.write)) == Compacted(s)
  {
    var k := SizeOf(s);
    assert s[..k] == Live(s);
    var surv := Survivors(s);
    assert w.write == |surv|;
    forall j | w.write <= j < |s| ensures w.slots[j] == s[j] {
    }
    EmptyFromUnique(w.slots, w.write, k);
    var r := ClearedBetween(w.slots, w.write, k);
    forall j | 0 <= j < |s| ensures r[j] == Compacted(s)[j] {
      if j < w.write {
        assert w.slots[j] == surv[j];
      }
    }
  }

  /** The sweep of a board with a live prefix is the closed form: survivors in front, cleared
      copies behind them, renumbered positions, and the dead in order with their positions. */
  lemma SweepBoardClosed(s: seq<Minion>, next: int, ts: seq<int>)
    requires LivePrefix(s)
    ensures SweepBoard(s, next, ts) ==
      Sweep(Compacted(s), NextRenumbered(s, next), RenumberedAll(s, ts), |Survivors(s)|,
            Casualties(s), DeadPositions(Live(s)))
  {
    SweepStart(s, next, ts);
    var w := SweepFrom(Sweep(s, next, ts, 0, [], []), 0);
    SweepFromReaches(s, next, ts, Sweep(s, next, ts, 0, [], []), 0);
    assert s[..SizeOf(s)] == Live(s);
    ClearedIsCompacted(s, w);
    assert w.track == RenumberedAll(s, ts);
  }

  // ---------------------------------------------------------------------------
  // Properties of the result

  lemma SurvivorsExist(s: seq<Minion>)
    ensures forall k :: 0 <= k < |Survivors(s)| ==> Exists(Survivors(s)[k]) && !Dead(Survivors(s)[k])
  {
    FilterElements(Live(s), NotDead);
    forall k | 0 <= k < |Survivors(s)| ensures Exists(Survivors(s)[k]) {
      var x := Survivors(s)[k];
      assert x in Live(s);
    }
  }

  lemma CasualtiesExist(s: seq<Minion>)
    ensures forall k :: 0 <= k < |Casualties(s)| ==> Exists(Casualties(s)[k]) && Dead(Casualties(s)[k])
  {
    FilterElements(Live(s), Dead);
    forall k | 0 <= k < |Casualties(s)| ensures Exists(Casualties(s)[k]) {
      var x := Casualties(s)[k];
      assert x in Live(s);
    }
  }

  /** The compacted board keeps the invariant, and its live prefix is exactly the survivors in
      their old order. */
  lemma CompactedLive(s: seq<Minion>)
    requires LivePrefix(s)
    ensures LivePrefix(Compacted(s)) && SizeOf(Compacted(s)) == |Survivors(s)|
    ensures Live(Compacted(s)) == Survivors(s)
  {
    var r := Compacted(s);
    var surv := Survivors(s);
    SurvivorsExist(s);
    assert |surv| <= SizeOf(s) by {
      assert |Live(s)| == SizeOf(s);
    }
    forall i | 0 <= i < |r| ensures Exists(r[i]) <==> i < |surv| {
    }
    PrefixOfLength(r, |surv|);
    assert Live(r) == surv;
  }

  /** A tracked minion that survives is found at its renumbered position; one that dies is
      lost; either way the position is valid on the compacted board. */
  lemma RenumberedFollows(s: seq<Minion>, t: int)
    requires LivePrefix(s) && TrackValid(t, SizeOf(s))
    ensures TrackValid(Renumbered(s, t), |Survivors(s)|)
    ensures Renumbered(s, t) >= 0 ==> Survivors(s)[Renumbered(s, t)] == s[t]
    ensures Renumbered(s, t) == -1 <==> t == -1 || Dead(s[t])
  {
    if t >= 0 && !Dead(s[t]) {
      var k := SizeOf(s);
      assert Live(s) == s[..k];
      assert s[..k][..t] == s[..t] && s[..k][..t + 1] == s[..t + 1];
      FilterSnoc(s[..k], t, NotDead);
      FilterPrefix(s[..k], t + 1, k, NotDead);
      assert s[..k][..k] == s[..k];
    }
  }

  /** Every position recorded for a dead minion lies within the compacted board, and they
      never decrease. */
  lemma {:induction false} DeadPositionsBounded(s: seq<Minion>)
    ensures forall k :: 0 <= k < |DeadPositions(s)| ==> 0 <= DeadPositions(s)[k] <= Count(s, NotDead)
    ensures forall k, l :: 0 <= k < l < |DeadPositions(s)| ==> DeadPositions(s)[k] <= DeadPositions(s)[l]
  {
    if s != [] {
      var t := s[..|s| - 1];
      DeadPositionsBounded(t);
      CountSnoc(s, |s| - 1, NotDead);
      assert s[..|s|] == s && s[..|s| - 1] == t;
    }
  }
}
