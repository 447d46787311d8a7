// src/minion_array.hpp: a fixed-capacity array of minions whose live minions form a prefix.
// The sequence functions below specify both MinionArray and Board (board.hpp repeats the code).
module MinionArrays {
  import opened Util
  import opened Minions

  // ---------------------------------------------------------------------------
  // Specification on sequences

  /** The first empty slot at or after `from`, or the length when there is none. */
  function EmptyFrom(s: seq<Minion>, from: nat): (k: nat)
    requires from <= |s|
    ensures from <= k <= |s|
    ensures forall i :: from <= i < k ==> Exists(s[i])
    ensures k < |s| ==> !Exists(s[k])
    decreases |s| - from
  {
    if from == |s| || !Exists(s[from]) then from else EmptyFrom(s, from + 1)
  }

  /** `size()`: the index of the first empty slot, or the capacity when there is none. */
  function SizeOf(s: seq<Minion>): (k: nat)
    ensures k <= |s|
    ensures forall i :: 0 <= i < k ==> Exists(s[i])
    ensures k < |s| ==> !Exists(s[k])
  {
    EmptyFrom(s, 0)
  }

  /** The documented invariant: the first `size()` slots hold minions, all others are empty. */
  ghost predicate LivePrefix(s: seq<Minion>) {
    forall i :: 0 <= i < |s| ==> (Exists(s[i]) <==> i < SizeOf(s))
  }

  /** The abstract contents: the minions in the live prefix, in board order. */
  function Live(s: seq<Minion>): seq<Minion> {
    s[..SizeOf(s)]
  }

  /** `insert(pos, m)` when not full: shift pos..N-2 one to the right, the last slot falls off. */
  function Inserted(s: seq<Minion>, pos: nat, m: Minion): (r: seq<Minion>)
    requires pos < |s|
    ensures |r| == |s|
  {
    s[..pos] + [m] + s[pos..|s| - 1]
  }

  /** `remove(pos)`: shift pos+1..N-1 one to the left and clear the last slot. */
  function Removed(s: seq<Minion>, pos: nat): (r: seq<Minion>)
    requires pos < |s|
    ensures |r| == |s|
  {
    s[..pos] + s[pos + 1..] + [Clear(s[|s| - 1])]
  }

  /** `append(m)`: write into the first empty slot, if any. */
  function Appended(s: seq<Minion>, m: Minion): (r: seq<Minion>)
    ensures |r| == |s|
  {
    if SizeOf(s) == |s| then s else s[SizeOf(s) := m]
  }

  /** `remove_all_from(pos)`: clear the existing slots from pos onwards. */
  function ClearedFrom(s: seq<Minion>, pos: nat): (r: seq<Minion>)
    ensures |r| == |s|
  {
    if pos >= |s| then s else ClearedBetween(s, pos, EmptyFrom(s, pos))
  }

  /** The slots lo..hi-1 cleared. */
  function ClearedBetween(s: seq<Minion>, lo: nat, hi: nat): (r: seq<Minion>)
    ensures |r| == |s|
  {
    seq(|s|, i requires 0 <= i < |s| => if lo <= i < hi then Clear(s[i]) else s[i])
  }

  /** `clear()`: every slot cleared. */
  function ClearedAll(s: seq<Minion>): (r: seq<Minion>)
    ensures |r| == |s|
  {
    seq(|s|, i requires 0 <= i < |s| => Clear(s[i]))
  }

  /** `for_each(f)` / `for_each_alive(f)`: f applied to the first k slots (alive ones only). */
  function MapPrefix(s: seq<Minion>, k: nat, f: Minion -> Minion, aliveOnly: bool): (r: seq<Minion>)
    requires k <= |s|
    ensures |r| == |s|
  {
    seq(|s|, i requires 0 <= i < |s| =>
      if i < k && (!aliveOnly || !Dead(s[i])) then f(s[i]) else s[i])
  }

  /** `for_each_with_pos(f)`: f gets the index as well. */
  function MapPrefixWithPos(s: seq<Minion>, k: nat, f: (int, Minion) -> Minion): (r: seq<Minion>)
    requires k <= |s|
    ensures |r| == |s|
  {
    seq(|s|, i requires 0 <= i < |s| => if i < k then f(i, s[i]) else s[i])
  }

  // The states the shifting and mapping loops pass through, and their steps.

  /** `remove(pos)` part-way: slots pos..j-1 already hold their right neighbours. */
  function ShiftedLeft(s: seq<Minion>, pos: nat, j: nat): (r: seq<Minion>)
    requires pos <= j < |s|
    ensures |r| == |s|
  {
    s[..pos] + s[pos + 1..j + 1] + s[j..]
  }

  lemma ShiftLeftStart(s: seq<Minion>, pos: nat)
    requires pos < |s|
    ensures ShiftedLeft(s, pos, pos) == s
  {
    assert s[..pos] + s[pos..] == s;
  }

  lemma ShiftLeftStep(s: seq<Minion>, pos: nat, j: nat)
    requires pos <= j < |s| - 1
    ensures ShiftedLeft(s, pos, j)[j + 1] == s[j + 1]
    ensures ShiftedLeft(s, pos, j + 1) == ShiftedLeft(s, pos, j)[j := s[j + 1]]
  {
    assert s[pos + 1..j + 2] == s[pos + 1..j + 1] + [s[j + 1]];
    assert s[j..] == [s[j]] + s[j + 1..];
  }

  lemma ShiftLeftDone(s: seq<Minion>, pos: nat)
    requires pos < |s|
    ensures ShiftedLeft(s, pos, |s| - 1)[|s| - 1] == s[|s| - 1]
    ensures ShiftedLeft(s, pos, |s| - 1)[|s| - 1 := Clear(s[|s| - 1])] == Removed(s, pos)
  {
    assert s[pos + 1..|s|] == s[pos + 1..];
  }

  /** `insert(pos, m)` part-way: slots j+1.. already hold their left neighbours. */
  function ShiftedRight(s: seq<Minion>, j: nat): (r: seq<Minion>)
    requires j < |s|
    ensures |r| == |s|
  {
    s[..j + 1] + s[j..|s| - 1]
  }

  lemma ShiftRightStart(s: seq<Minion>)
    requires |s| > 0
    ensures ShiftedRight(s, |s| - 1) == s
  {
    assert s[..|s|] == s;
  }

  lemma ShiftRightStep(s: seq<Minion>, j: nat)
    requires 0 < j < |s|
    ensures ShiftedRight(s, j)[j - 1] == s[j - 1]
    ensures ShiftedRight(s, j - 1) == ShiftedRight(s, j)[j := s[j - 1]]
  {
    assert s[..j + 1] == s[..j] + [s[j]];
    assert s[j - 1..|s| - 1] == [s[j - 1]] + s[j..|s| - 1];
  }

  lemma ShiftRightDone(s: seq<Minion>, pos: nat, m: Minion)
    requires pos < |s|
    ensures ShiftedRight(s, pos)[pos := m] == Inserted(s, pos, m)
  {
    assert s[..pos + 1] == s[..pos] + [s[pos]];
  }

  lemma MapPrefixStep(s: seq<Minion>, i: nat, f: Minion -> Minion, aliveOnly: bool)
    requires i < |s|
    ensures MapPrefix(s, i, f, aliveOnly)[i] == s[i]
    ensures MapPrefix(s, i + 1, f, aliveOnly) ==
      if !aliveOnly || !Dead(s[i]) then MapPrefix(s, i, f, aliveOnly)[i := f(s[i])]
      else MapPrefix(s, i, f, aliveOnly)
  {
  }

  lemma MapPrefixWithPosStep(s: seq<Minion>, i: nat, f: (int, Minion) -> Minion)
    requires i < |s|
    ensures MapPrefixWithPos(s, i, f)[i] == s[i]
    ensures MapPrefixWithPos(s, i + 1, f) == MapPrefixWithPos(s, i, f)[i := f(i, s[i])]
  {
  }

  lemma ClearedBetweenStep(s: seq<Minion>, lo: nat, hi: nat)
    requires lo <= hi < |s|
    ensures ClearedBetween(s, lo, hi)[hi] == s[hi]
    ensures ClearedBetween(s, lo, hi + 1) == ClearedBetween(s, lo, hi)[hi := Clear(s[hi])]
  {
  }

  // ---------------------------------------------------------------------------
  // Properties of the specification

  /** The three properties of `EmptyFrom` pin it down. */
  lemma EmptyFromUnique(s: seq<Minion>, from: nat, k: nat)
    requires from <= k <= |s|
    requires forall i :: from <= i < k ==> Exists(s[i])
    requires k < |s| ==> !Exists(s[k])
    ensures EmptyFrom(s, from) == k
  {
  }

  /** A sequence whose existing slots are exactly those below k has the invariant and size k. */
  lemma PrefixOfLength(s: seq<Minion>, k: nat)
    requires k <= |s|
    requires forall i :: 0 <= i < |s| ==> (Exists(s[i]) <==> i < k)
    ensures LivePrefix(s) && SizeOf(s) == k
  {
    EmptyFromUnique(s, 0, k);
  }

  /** Inserting an existing minion at or below the size into a non-full array keeps the
      invariant and puts the minion at `pos` of the live contents, shifting the rest. */
  lemma InsertedLive(s: seq<Minion>, pos: nat, m: Minion)
    requires LivePrefix(s) && pos <= SizeOf(s) < |s| && Exists(m)
    ensures LivePrefix(Inserted(s, pos, m))
    ensures SizeOf(Inserted(s, pos, m)) == SizeOf(s) + 1
    ensures Live(Inserted(s, pos, m)) == Live(s)[..pos] + [m] + Live(s)[pos..]
  {
    var r := Inserted(s, pos, m);
    var k := SizeOf(s);
    forall i | 0 <= i < |r|
      ensures Exists(r[i]) <==> i < k + 1
    {
      if i < pos { assert r[i] == s[i]; }
      else if i > pos { assert r[i] == s[i - 1]; }
    }
    PrefixOfLength(r, k + 1);
    assert Live(r) == r[..k + 1] == s[..pos] + [m] + s[pos..k];
    assert Live(s)[..pos] == s[..pos] && Live(s)[pos..] == s[pos..k];
  }

  /** Removing the minion at `pos` keeps the invariant and deletes it from the live contents;
      removing at an empty slot changes no live minion. */
  lemma RemovedLive(s: seq<Minion>, pos: nat)
    requires LivePrefix(s) && pos < |s|
    ensures LivePrefix(Removed(s, pos))
    ensures pos < SizeOf(s) ==> SizeOf(Removed(s, pos)) == SizeOf(s) - 1
    ensures pos < SizeOf(s) ==> Live(Removed(s, pos)) == Live(s)[..pos] + Live(s)[pos + 1..]
    ensures pos >= SizeOf(s) ==> Live(Removed(s, pos)) == Live(s)
  {
    var r := Removed(s, pos);
    var k := SizeOf(s);
    var k' := if pos < k then k - 1 else k;
    forall i | 0 <= i < |r|
      ensures Exists(r[i]) <==> i < k'
    {
      if i < pos { assert r[i] == s[i]; }
      else if i < |r| - 1 { assert r[i] == s[i + 1]; }
      else { assert r[i] == Clear(s[|s| - 1]); }
    }
    PrefixOfLength(r, k');
  }

  /** Removing what was just inserted gives back the live contents. */
  lemma InsertThenRemove(s: seq<Minion>, pos: nat, m: Minion)
    requires LivePrefix(s) && pos <= SizeOf(s) < |s| && Exists(m)
    ensures Live(Removed(Inserted(s, pos, m), pos)) == Live(s)
  {
    InsertedLive(s, pos, m);
    var r := Inserted(s, pos, m);
    RemovedLive(r, pos);
    assert Live(s) == Live(s)[..pos] + Live(s)[pos..];
  }

  /** Appending to a non-full array adds the minion at the end of the live contents. */
  lemma AppendedLive(s: seq<Minion>, m: Minion)
    requires LivePrefix(s) && SizeOf(s) < |s| && Exists(m)
    ensures LivePrefix(Appended(s, m))
    ensures Live(Appended(s, m)) == Live(s) + [m]
  {
    var r := Appended(s, m);
    var k := SizeOf(s);
    forall i | 0 <= i < |r|
      ensures Exists(r[i]) <==> i < k + 1
    {
    }
    PrefixOfLength(r, k + 1);
  }

  /** Appending to a full array changes nothing. */
  lemma AppendedFull(s: seq<Minion>, m: Minion)
    requires SizeOf(s) == |s|
    ensures Appended(s, m) == s
  {
  }

  /** Clearing from a position inside the live prefix truncates the live contents there. */
  lemma ClearedFromLive(s: seq<Minion>, pos: nat)
    requires LivePrefix(s) && pos <= SizeOf(s)
    ensures LivePrefix(ClearedFrom(s, pos))
    ensures Live(ClearedFrom(s, pos)) == Live(s)[..pos]
  {
    var r := ClearedFrom(s, pos);
    if pos < |s| {
      EmptyFromUnique(s, pos, SizeOf(s));
    }
    forall i | 0 <= i < |r|
      ensures Exists(r[i]) <==> i < pos
    {
    }
    PrefixOfLength(r, pos);
  }

  /** After `clear()` nothing is live. */
  lemma ClearedAllEmpty(s: seq<Minion>)
    ensures LivePrefix(ClearedAll(s)) && SizeOf(ClearedAll(s)) == 0 && Live(ClearedAll(s)) == []
  {
    var r := ClearedAll(s);
    if |r| > 0 {
      assert !Exists(r[0]);
    }
  }

  /** A map that keeps every minion existing keeps the size and the invariant. */
  lemma MapPrefixKeepsShape(s: seq<Minion>, f: Minion -> Minion, aliveOnly: bool)
    requires LivePrefix(s)
    requires forall m :: Exists(m) ==> f(m).kind == m.kind
    ensures LivePrefix(MapPrefix(s, SizeOf(s), f, aliveOnly))
    ensures SizeOf(MapPrefix(s, SizeOf(s), f, aliveOnly)) == SizeOf(s)
  {
    var r := MapPrefix(s, SizeOf(s), f, aliveOnly);
    forall i | 0 <= i < |r| ensures Exists(r[i]) <==> i < SizeOf(s) {
    }
    PrefixOfLength(r, SizeOf(s));
  }

  /** Two arrays with a minion of the same type in every slot. */
  ghost predicate SameKinds(s: seq<Minion>, t: seq<Minion>) {
    |s| == |t| && forall i :: 0 <= i < |s| ==> s[i].kind == t[i].kind
  }

  lemma {:induction false} SameKindsEmptyFrom(s: seq<Minion>, t: seq<Minion>, from: nat)
    requires SameKinds(s, t) && from <= |s|
    ensures EmptyFrom(s, from) == EmptyFrom(t, from)
    decreases |s| - from
  {
    if from < |s| && Exists(s[from]) {
      SameKindsEmptyFrom(s, t, from + 1);
    }
  }

  /** Changing anything but the types keeps the size and the invariant. */
  lemma SameKindsSameShape(s: seq<Minion>, t: seq<Minion>)
    requires SameKinds(s, t)
    ensures SizeOf(s) == SizeOf(t)
    ensures LivePrefix(s) <==> LivePrefix(t)
  {
    SameKindsEmptyFrom(s, t, 0);
  }

  // ---------------------------------------------------------------------------
  // The container

  /** `MinionArray<N>`: the capacity N is fixed at construction. */
  class MinionArray {
    const capacity: nat
    const minions: array<Minion>

    ghost predicate Valid() {
      minions.Length == capacity && capacity > 0
    }

    /** `MinionArray()`: every slot default-constructed, hence empty. */
    constructor(n: nat)
      requires n > 0
      ensures Valid() && capacity == n && fresh(minions)
      ensures minions[..] == seq(n, _ => Empty())
      ensures LivePrefix(minions[..]) && SizeOf(minions[..]) == 0
    {
      capacity := n;
      minions := new Minion[n](_ => Empty());
      new;
      assert !Exists(minions[..][0]);
    }

    /** `size()` scans for the first empty slot. */
    method Size() returns (k: int)
      requires Valid()
      ensures k == SizeOf(minions[..])
    {
      k := 0;
      while k < capacity
        invariant 0 <= k <= capacity
        invariant forall i :: 0 <= i < k ==> Exists(minions[i])
      {
        if !Exists(minions[k]) {
          EmptyFromUnique(minions[..], 0, k);
          return;
        }
        k := k + 1;
      }
      EmptyFromUnique(minions[..], 0, k);
    }

    /** `empty()` only looks at the first slot. */
    predicate IsEmpty()
      requires Valid()
      reads this, minions
    {
      !Exists(minions[0])
    }

    /** `full()` only looks at the last slot. */
    predicate IsFull()
      requires Valid()
      reads this, minions
    {
      Exists(minions[capacity - 1])
    }

    predicate Contains(pos: int)
      requires Valid()
      reads this, minions
    {
      0 <= pos < capacity && Exists(minions[pos])
    }

    /** Under the invariant the one-slot tests agree with the size. */
    lemma QueriesAgreeWithSize(pos: int)
      requires Valid() && LivePrefix(minions[..])
      ensures IsEmpty() <==> SizeOf(minions[..]) == 0
      ensures IsFull() <==> SizeOf(minions[..]) == capacity
      ensures Contains(pos) <==> 0 <= pos < SizeOf(minions[..])
    {
    }

    method Clear()
      requires Valid()
      modifies minions
      ensures minions[..] == ClearedAll(old(minions[..]))
    {
      var i := 0;
      while i < capacity
        invariant 0 <= i <= capacity
        invariant forall j :: 0 <= j < i ==> minions[j] == Minions.Clear(old(minions[j]))
        invariant forall j :: i <= j < capacity ==> minions[j] == old(minions[j])
      {
        minions[i] := Minions.Clear(minions[i]);
        i := i + 1;
      }
    }

    /** `append(m)` returns the slot written, or the capacity when full. */
    method Append(m: Minion) returns (i: int)
      requires Valid()
      modifies minions
      ensures i == SizeOf(old(minions[..]))
      ensures minions[..] == Appended(old(minions[..]), m)
    {
      i := Size();
      if i < capacity {
        minions[i] := m;
      }
    }

    /** `insert(pos, m)` refuses when the last slot is taken. */
    method Insert(pos: int, m: Minion) returns (ok: bool)
      requires Valid() && 0 <= pos < capacity
      modifies minions
      ensures ok == !old(IsFull())
      ensures minions[..] == if ok then Inserted(old(minions[..]), pos, m) else old(minions[..])
    {
      if IsFull() {
        return false;
      }
      ShiftInto(pos, m);
      ok := true;
    }

    /** The body of `insert` past its fullness test: shift pos..N-2 right, write `m` at pos. */
    method ShiftInto(pos: int, m: Minion)
      requires Valid() && 0 <= pos < capacity
      modifies minions
      ensures minions[..] == Inserted(old(minions[..]), pos, m)
    {
      ghost var s := minions[..];
      var j := capacity - 1;
      ShiftRightStart(s);
      while j > pos
        invariant pos <= j <= capacity - 1
        invariant minions[..] == ShiftedRight(s, j)
      {
        ShiftRightStep(s, j);
        ghost var before := minions[..];
        minions[j] := minions[j - 1];
        assert minions[..] == before[j := s[j - 1]];
        j := j - 1;
      }
      ShiftRightDone(s, pos, m);
      ghost var before := minions[..];
      minions[pos] := m;
      assert minions[..] == before[pos := m];
    }

    method Remove(pos: int)
      requires Valid() && 0 <= pos < capacity
      modifies minions
      ensures minions[..] == Removed(old(minions[..]), pos)
    {
      ghost var s := minions[..];
      var j := pos;
      ShiftLeftStart(s, pos);
      while j < capacity - 1
        invariant pos <= j <= capacity - 1
        invariant minions[..] == ShiftedLeft(s, pos, j)
      {
        ShiftLeftStep(s, pos, j);
        ghost var before := minions[..];
        minions[j] := minions[j + 1];
        assert minions[..] == before[j := s[j + 1]];
        j := j + 1;
      }
      ShiftLeftDone(s, pos);
      ghost var before := minions[..];
      minions[capacity - 1] := Minions.Clear(minions[capacity - 1]);
      assert minions[..] == before[capacity - 1 := Minions.Clear(s[capacity - 1])];
    }

    method RemoveAllFrom(pos: int)
      requires Valid() && 0 <= pos
      modifies minions
      ensures minions[..] == ClearedFrom(old(minions[..]), pos)
    {
      if pos >= capacity {
        return;
      }
      ghost var s := minions[..];
      var p := pos;
      assert ClearedBetween(s, pos, pos) == s;
      while p < capacity && Exists(minions[p])
        invariant pos <= p <= capacity
        invariant forall i :: pos <= i < p ==> Exists(s[i])
        invariant minions[..] == ClearedBetween(s, pos, p)
        decreases capacity - p
      {
        ClearedBetweenStep(s, pos, p);
        ghost var before := minions[..];
        minions[p] := Minions.Clear(minions[p]);
        assert minions[..] == before[p := Minions.Clear(s[p])];
        p := p + 1;
      }
      EmptyFromUnique(s, pos, p);
    }

    /** `for_each(f)` / `for_each_alive(f)` with an update of each visited minion. */
    method ForEach(f: Minion -> Minion, aliveOnly: bool)
      requires Valid()
      modifies minions
      ensures minions[..] == MapPrefix(old(minions[..]), SizeOf(old(minions[..])), f, aliveOnly)
    {
      ghost var s := minions[..];
      var i := 0;
      assert MapPrefix(s, 0, f, aliveOnly) == s;
      while i < capacity && Exists(minions[i])
        invariant 0 <= i <= SizeOf(s)
        invariant minions[..] == MapPrefix(s, i, f, aliveOnly)
      {
        MapPrefixStep(s, i, f, aliveOnly);
        if !aliveOnly || !Dead(minions[i]) {
          ghost var before := minions[..];
          minions[i] := f(minions[i]);
          assert minions[..] == before[i := f(s[i])];
        }
        i := i + 1;
      }
      if i < capacity {
        MapPrefixStep(s, i, f, aliveOnly);
      }
      EmptyFromUnique(s, 0, i);
    }

    method ForEachWithPos(f: (int, Minion) -> Minion)
      requires Valid()
      modifies minions
      ensures minions[..] == MapPrefixWithPos(old(minions[..]), SizeOf(old(minions[..])), f)
    {
      ghost var s := minions[..];
      var i := 0;
      assert MapPrefixWithPos(s, 0, f) == s;
      while i < capacity && Exists(minions[i])
        invariant 0 <= i <= SizeOf(s)
        invariant minions[..] == MapPrefixWithPos(s, i, f)
      {
        MapPrefixWithPosStep(s, i, f);
        ghost var before := minions[..];
        minions[i] := f(i, minions[i]);
        assert minions[..] == before[i := f(i, s[i])];
        i := i + 1;
      }
      if i < capacity {
        MapPrefixWithPosStep(s, i, f);
      }
      EmptyFromUnique(s, 0, i);
    }

    /** `count_if(p)` counts over the live prefix, dead minions included. */
    method CountIf(p: Minion -> bool) returns (n: int)
      requires Valid()
      ensures n == Count(Live(minions[..]), p)
      ensures 0 <= n <= SizeOf(minions[..])
    {
      n := 0;
      var i := 0;
      while i < capacity && Exists(minions[i])
        invariant 0 <= i <= SizeOf(minions[..])
        invariant n == Count(minions[..i], p)
      {
        assert minions[..i + 1][..i] == minions[..i];
        n := n + if p(minions[i]) then 1 else 0;
        i := i + 1;
      }
      EmptyFromUnique(minions[..], 0, i);
    }
  }
}
