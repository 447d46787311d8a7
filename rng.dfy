// src/random.hpp and src/random.cpp: the xoroshiro128+ 1.0 generator of Blackman and Vigna,
// its jump functions, the modulo range reduction and the Fisher-Yates shuffle.
module Rng {

  /** The 128-bit state `s[0], s[1]`. */
  datatype State = State(s0: bv64, s1: bv64)

  const Zero := State(0, 0)

  /** The fixed seed every default-constructed generator starts from. */
  const DefaultState := State(1234567891234567890, 9876543210987654321)

  const JumpWords: seq<bv64> := [0xdf900294d8f554a5, 0x170865df4b3201fc]
  const LongJumpWords: seq<bv64> := [0xd2a98b26625eee7b, 0xdddf9b1090aa7ac1]

  /** `rotl(x, k)`; used with k = 24 and k = 37. */
  function Rotl(x: bv64, k: bv64): bv64
    requires 0 < k < 64
  {
    (x << k) | (x >> (64 - k))
  }

  /** The value `next()` returns: the wrapping sum of the two state words. */
  function Output(st: State): bv64 {
    st.s0 + st.s1
  }

  /** The state after one `next()`. */
  function Step(st: State): State {
    var t := st.s1 ^ st.s0;
    State(Rotl(st.s0, 24) ^ t ^ (t << 16), Rotl(t, 37))
  }

  function Xor(a: State, b: State): State {
    State(a.s0 ^ b.s0, a.s1 ^ b.s1)
  }

  /** `JUMP[i] & UINT64_C(1) << b`. */
  predicate BitSet(word: bv64, b: nat)
    requires b < 64
  {
    word & ((1 as bv64) << b) != 0
  }

  /** The jump loop from bit `b` of word `w` on, with the generator at `st` and the
      accumulator at `acc`: each step XORs the state into the accumulator when the bit is set,
      then advances the generator. */
  function JumpFrom(words: seq<bv64>, w: nat, b: nat, st: State, acc: State): State
    requires w <= |words| && b < 64
    decreases |words| - w, 64 - b
  {
    if w == |words| then acc
    else
      var acc' := if BitSet(words[w], b) then Xor(acc, st) else acc;
      if b == 63 then JumpFrom(words, w + 1, 0, Step(st), acc')
      else JumpFrom(words, w, b + 1, Step(st), acc')
  }

  /** `jump()` / `long_jump()`: the state installed at the end of the loop. */
  function Jumped(words: seq<bv64>, st: State): State {
    JumpFrom(words, 0, 0, st, Zero)
  }

  /** The all-zero state is a fixed point of the generator and of every jump, which is why
      the algorithm demands a non-zero seed. */
  lemma {:induction false} ZeroIsFixed(words: seq<bv64>, w: nat, b: nat)
    requires w <= |words| && b < 64
    ensures Step(Zero) == Zero
    ensures JumpFrom(words, w, b, Zero, Zero) == Zero
    decreases |words| - w, 64 - b
  {
    assert Step(Zero) == Zero;
    assert Xor(Zero, Zero) == Zero;
    if w < |words| {
      if b == 63 {
        ZeroIsFixed(words, w + 1, 0);
      } else {
        ZeroIsFixed(words, w, b + 1);
      }
    }
  }

  lemma JumpedZero(words: seq<bv64>)
    ensures Jumped(words, Zero) == Zero
  {
    ZeroIsFixed(words, 0, 0);
  }

  /** The default seed respects that demand. */
  lemma DefaultStateNonZero()
    ensures DefaultState != Zero
  {
  }

  /** `random(range)`: `next() % range` on unsigned words. */
  function Draw(st: State, range: nat): (r: nat)
    requires range > 0
    ensures r < range
  {
    (Output(st) as int) % range
  }

  /** Fisher-Yates from index `i` on: swap slot i with slot `random(i+1)`; returns the
      shuffled sequence and the final generator state. */
  function ShuffleFrom<T>(s: seq<T>, i: nat, st: State): (r: (seq<T>, State))
    requires 1 <= i
    ensures |r.0| == |s|
    decreases |s| - i
  {
    if i >= |s| then (s, st)
    else
      var j := Draw(st, i + 1);
      var s' := if i != j then Swap(s, i, j) else s;
      ShuffleFrom(s', i + 1, Step(st))
  }

  /** One step of the shuffle, unfolded. */
  lemma ShuffleFromStep<T>(s: seq<T>, i: nat, st: State)
    requires 1 <= i < |s|
    ensures ShuffleFrom(s, i, st) ==
            ShuffleFrom(if i != Draw(st, i + 1) then Swap(s, i, Draw(st, i + 1)) else s, i + 1, Step(st))
  {
  }

  function Shuffled<T>(s: seq<T>, st: State): (seq<T>, State) {
    ShuffleFrom(s, 1, st)
  }

  function Swap<T>(s: seq<T>, i: nat, j: nat): (r: seq<T>)
    requires i < |s| && j < |s|
    ensures |r| == |s|
  {
    s[i := s[j]][j := s[i]]
  }

  /** Swapping two slots keeps the multiset of elements. */
  lemma SwapPermutes<T>(s: seq<T>, i: nat, j: nat)
    requires i < |s| && j < |s|
    ensures multiset(Swap(s, i, j)) == multiset(s)
  {
    var t := s[i := s[j]];
    assert multiset(t) == multiset(s) - multiset{s[i]} + multiset{s[j]};
    assert multiset(t[j := s[i]]) == multiset(t) - multiset{t[j]} + multiset{s[i]};
  }

  /** The shuffle only permutes: the result holds the same elements with the same multiplicities. */
  lemma {:induction false} ShuffleFromPermutes<T>(s: seq<T>, i: nat, st: State)
    requires 1 <= i
    ensures multiset(ShuffleFrom(s, i, st).0) == multiset(s)
    decreases |s| - i
  {
    if i < |s| {
      var j := Draw(st, i + 1);
      var s' := if i != j then Swap(s, i, j) else s;
      if i != j {
        SwapPermutes(s, i, j);
      }
      ShuffleFromPermutes(s', i + 1, Step(st));
    }
  }

  lemma ShuffledPermutes<T>(s: seq<T>, st: State)
    ensures multiset(Shuffled(s, st).0) == multiset(s)
    ensures |Shuffled(s, st).0| == |s|
    ensures |s| <= 1 ==> Shuffled(s, st) == (s, st)
  {
    ShuffleFromPermutes(s, 1, st);
  }

  /** `if (i != j) std::swap(data[i], data[j])`. */
  method SwapInPlace<T>(a: array<T>, i: int, j: int)
    requires 0 <= i < a.Length && 0 <= j < a.Length
    modifies a
    ensures a[..] == if i != j then Swap(old(a[..]), i, j) else old(a[..])
  {
    if i != j {
      a[i], a[j] := a[j], a[i];
    }
  }

  class RNG {
    var state: State

    /** `RNG()`: the default seed. */
    constructor()
      ensures state == DefaultState
    {
      state := DefaultState;
    }

    /** `RNG(s)`: an explicit seed. */
    constructor FromState(s: State)
      ensures state == s
    {
      state := s;
    }

    method Next() returns (r: bv64)
      modifies this
      ensures r == Output(old(state))
      ensures state == Step(old(state))
    {
      r := Output(state);
      state := Step(state);
    }

    /** `random(range)`; a range of zero would divide by zero. */
    method Random(range: int) returns (r: int)
      requires range > 0
      modifies this
      ensures 0 <= r < range
      ensures r == Draw(old(state), range)
      ensures state == Step(old(state))
    {
      var x := Next();
      r := (x as int) % range;
    }

    /** `jump()` and `long_jump()`, sharing one body over their constant words. */
    method JumpWith(words: seq<bv64>)
      modifies this
      ensures state == Jumped(words, old(state))
    {
      var acc := Zero;
      var w := 0;
      while w < |words|
        invariant 0 <= w <= |words|
        invariant JumpFrom(words, w, 0, state, acc) == Jumped(words, old(state))
      {
        var b := 0;
        while b < 64
          invariant 0 <= b <= 64
          invariant (if b < 64 then JumpFrom(words, w, b, state, acc)
                     else JumpFrom(words, w + 1, 0, state, acc)) == Jumped(words, old(state))
        {
          if BitSet(words[w], b) {
            acc := Xor(acc, state);
          }
          var _ := Next();
          b := b + 1;
        }
        w := w + 1;
      }
      state := acc;
    }

    method Jump()
      modifies this
      ensures state == Jumped(JumpWords, old(state))
    {
      JumpWith(JumpWords);
    }

    method LongJump()
      modifies this
      ensures state == Jumped(LongJumpWords, old(state))
    {
      JumpWith(LongJumpWords);
    }

    /** `next_rng()`: a generator at the current state; this one jumps ahead. */
    method NextRng() returns (out: RNG)
      modifies this
      ensures fresh(out) && out.state == old(state)
      ensures state == Jumped(JumpWords, old(state))
    {
      out := new RNG.FromState(state);
      Jump();
    }

    /** `shuffle(data, n)` over a whole array. */
    method Shuffle<T>(a: array<T>)
      modifies this, a
      ensures (a[..], state) == Shuffled(old(a[..]), old(state))
    {
      var i := 1;
      while i < a.Length
        invariant 1 <= i
        invariant ShuffleFrom(a[..], i, state) == Shuffled(old(a[..]), old(state))
      {
        ShuffleFromStep(a[..], i, state);
        var j := Random(i + 1);
        SwapInPlace(a, i, j);
        i := i + 1;
      }
    }

    /** The same shuffle applied to a vector held by value. */
    method ShuffleSeq<T>(s: seq<T>) returns (r: seq<T>)
      modifies this
      ensures (r, state) == Shuffled(s, old(state))
      ensures multiset(r) == multiset(s) && |r| == |s|
    {
      if |s| == 0 {
        ShuffledPermutes(s, state);
        return s;
      }
      var a := new T[|s|](k requires 0 <= k < |s| => s[k]);
      assert a[..] == s;
      Shuffle(a);
      r := a[..];
      ShuffledPermutes(s, old(state));
    }
  }
}
