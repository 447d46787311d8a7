// src/random.cpp: `KeyedRNG`, the generator that keeps, per key and range, one permutation for
// the first call of a run, another for the second call, and so on, so that the k-th draw with a
// given key walks through all its results over the runs before repeating one.
module KeyedRng {
  import opened Util
  import opened Rng

  /** The most calls one key and range may make in a run; the next one ends the program. */
  const MaxUses: nat := 30

  /** A table key: the random key and the range asked for. */
  datatype Header = Header(key: int, n: int)

  /** One permutation of `0 .. n - 1` and the index of its next entry. */
  datatype PermEntry = PermEntry(perm: seq<int>, i: int)

  /** The calls made with a header in the current run, and one permutation per call number. */
  datatype KeyEntry = KeyEntry(timesUsed: nat, entries: seq<PermEntry>)

  /** A call's outcome: the new table and generator and the value, or the program ending. */
  datatype KeyedDraw = Drawn(table: map<Header, KeyEntry>, rng: State, value: int) | Exited

  /** `table[{key, n}]`: a header not yet in the table reads as a fresh entry. */
  function EntryAt(t: map<Header, KeyEntry>, h: Header): (r: KeyEntry)
    ensures h !in t ==> r == KeyEntry(0, [])
  {
    if h in t then t[h] else KeyEntry(0, [])
  }

  ghost predicate PermOk(e: PermEntry, n: int) {
    |e.perm| == n && IsRangePerm(e.perm) && e.i >= 0
  }

  /** What the table is between calls: at most one permutation per call number up to the
      limit, no more calls than permutations, and every permutation one of `0 .. n - 1`. */
  ghost predicate KeyedValid(t: map<Header, KeyEntry>) {
    forall h :: h in t ==>
      && t[h].timesUsed <= |t[h].entries| <= MaxUses + 1
      && forall k :: 0 <= k < |t[h].entries| ==> PermOk(t[h].entries[k], h.n)
  }

  lemma EntryAtValid(t: map<Header, KeyEntry>, h: Header)
    requires KeyedValid(t)
    ensures var ke := EntryAt(t, h);
      && ke.timesUsed <= |ke.entries| <= MaxUses + 1
      && forall k :: 0 <= k < |ke.entries| ==> PermOk(ke.entries[k], h.n)
  {
  }

  /** `KeyedRNG::random(n, key)`. */
  function KeyedRandom(t: map<Header, KeyEntry>, st: State, key: int, n: int): (r: KeyedDraw)
    requires KeyedValid(t)
  {
    if n <= 1 then Drawn(t, st, 0)
    else
      var h := Header(key, n);
      EntryAtValid(t, h);
      var ke := EntryAt(t, h);
      var used := ke.timesUsed;
      if used >= |ke.entries| && used > MaxUses then Exited
      else
        var es := if used >= |ke.entries| then ke.entries + [PermEntry(Range(n), n)] else ke.entries;
        var x := Drawn1(es[used], st, n);
        Drawn(t[h := KeyEntry(used + 1, es[used := x.0])], x.1, x.0.perm[x.0.i - 1])
  }

  /** `if (e.i >= n) { shuffle; i = 0; }` then `perm[i++]`, on one permutation. */
  function Drawn1(e: PermEntry, st: State, n: int): (r: (PermEntry, State))
    requires |e.perm| == n > 1 && e.i >= 0
    ensures |r.0.perm| == n && 1 <= r.0.i <= n
    ensures multiset(r.0.perm) == multiset(e.perm)
  {
    if e.i >= n then
      ShuffledPermutes(e.perm, st);
      var sh := Shuffled(e.perm, st);
      (PermEntry(sh.0, 1), sh.1)
    else (e.(i := e.i + 1), st)
  }

  /** The uses of a header in the current run. */
  function Used(t: map<Header, KeyEntry>, key: int, n: int): nat {
    EntryAt(t, Header(key, n)).timesUsed
  }

  /** The table stays well formed; a call returns 0 for `n <= 1` and otherwise a value in
      `0 .. n - 1`. */
  lemma KeyedRandomInRange(t: map<Header, KeyEntry>, st: State, key: int, n: int)
    requires KeyedValid(t)
    ensures var r := KeyedRandom(t, st, key, n);
      && (r.Drawn? ==> KeyedValid(r.table))
      && (n <= 1 ==> r == Drawn(t, st, 0))
      && (n > 1 && r.Drawn? ==> 0 <= r.value < n)
  {
    var r := KeyedRandom(t, st, key, n);
    if n > 1 && r.Drawn? {
      var h := Header(key, n);
      var ke := EntryAt(t, h);
      var used := ke.timesUsed;
      var es := if used >= |ke.entries| then ke.entries + [PermEntry(Range(n), n)] else ke.entries;
      assert PermOk(es[used], n);
      var x := Drawn1(es[used], st, n);
      assert IsRangePerm(x.0.perm);
      RangePermBounds(x.0.perm, x.0.i - 1);
      var es1 := es[used := x.0];
      assert forall k :: 0 <= k < |es1| ==> PermOk(es1[k], n);
    }
  }

  /** The program ends exactly on the call after a header's thirty-first in a run. */
  lemma KeyedExitsOnLimit(t: map<Header, KeyEntry>, st: State, key: int, n: int)
    requires KeyedValid(t)
    ensures KeyedRandom(t, st, key, n).Exited? <==> n > 1 && Used(t, key, n) == MaxUses + 1
  {
    EntryAtValid(t, Header(key, n));
  }

  /** The k-th call of a run with a header draws from that header's k-th permutation: it counts
      the call, hands out that permutation's next value, and leaves every other header and every
      other permutation as it was. */
  lemma KeyedOwnPermutation(t: map<Header, KeyEntry>, st: State, key: int, n: int)
    requires KeyedValid(t) && n > 1
    ensures var r := KeyedRandom(t, st, key, n);
      var h := Header(key, n);
      var ke := EntryAt(t, h);
      var used := ke.timesUsed;
      r.Drawn? ==>
        && r.table.Keys == t.Keys + {h}
        && (forall g :: g in t && g != h ==> r.table[g] == t[g])
        && r.table[h].timesUsed == used + 1
        && |r.table[h].entries| == Max(|ke.entries|, used + 1)
        && (forall k :: 0 <= k < |ke.entries| && k != used ==> r.table[h].entries[k] == ke.entries[k])
        && var e := r.table[h].entries[used];
           e.i >= 1 && r.value == e.perm[e.i - 1]
  {
    EntryAtValid(t, Header(key, n));
  }

  /** Within a round of one permutation the generator is not consulted and the values come in
      the permutation's order. */
  lemma KeyedMidRound(t: map<Header, KeyEntry>, st: State, key: int, n: int)
    requires KeyedValid(t) && n > 1
    requires var ke := EntryAt(t, Header(key, n));
      ke.timesUsed < |ke.entries| && ke.entries[ke.timesUsed].i < n
    ensures var r := KeyedRandom(t, st, key, n);
      var ke := EntryAt(t, Header(key, n));
      var e := ke.entries[ke.timesUsed];
      && r.Drawn? && r.rng == st && r.value == e.perm[e.i]
  {
  }

  /** Two positions of one permutation hold different values, so a round hands out no value
      twice. */
  lemma KeyedRoundDistinct(t: map<Header, KeyEntry>, h: Header, k: nat, j1: nat, j2: nat)
    requires KeyedValid(t) && h in t && k < |t[h].entries| && j1 < j2 < |t[h].entries[k].perm|
    ensures t[h].entries[k].perm[j1] != t[h].entries[k].perm[j2]
  {
    assert PermOk(t[h].entries[k], h.n);
    RangePermDistinct(t[h].entries[k].perm, j1, j2);
  }

  /** `start()`: every counter back to 0; the permutations stay. */
  function Restarted(t: map<Header, KeyEntry>): (r: map<Header, KeyEntry>) {
    map h | h in t :: t[h].(timesUsed := 0)
  }

  /** Restarting keeps the table well formed and its permutations, and the next call with any
      header is that run's first. */
  lemma RestartedResets(t: map<Header, KeyEntry>)
    requires KeyedValid(t)
    ensures var r := Restarted(t);
      && KeyedValid(r) && r.Keys == t.Keys
      && (forall h :: h in t ==> r[h].entries == t[h].entries)
      && forall key, n :: Used(r, key, n) == 0
  {
  }

  /** `KeyedRNG`: the table and the generator it shuffles with. */
  class KeyedRNG {
    var table: map<Header, KeyEntry>
    const rng: RNG

    constructor(rng: RNG)
      ensures table == map[] && KeyedValid(table) && this.rng == rng
    {
      table := map[];
      this.rng := rng;
    }

    /** `start()`: the loop over the table's entries. */
    method Start()
      modifies this
      ensures table == Restarted(old(table))
    {
      var todo := table.Keys;
      while todo != {}
        invariant todo <= table.Keys == old(table).Keys
        invariant forall h :: h in table ==>
          table[h] == if h in todo then old(table)[h] else old(table)[h].(timesUsed := 0)
        decreases todo
      {
        var h :| h in todo;
        table := table[h := table[h].(timesUsed := 0)];
        todo := todo - {h};
      }
    }

    /** `random(n, key)`; `None` stands for the program ending. */
    method Random(n: int, key: int) returns (r: Option<int>)
      requires KeyedValid(table)
      modifies this, rng
      ensures KeyedRandom(old(table), old(rng.state), key, n)
           == if r.None? then Exited else Drawn(table, rng.state, r.value)
    {
      if n <= 1 {
        return Some(0);
      }
      hide KeyedValid;
      var h := Header(key, n);
      EntryAtValid(table, h);
      var ke := if h in table then table[h] else KeyEntry(0, []);
      var used := ke.timesUsed;
      var es := ke.entries;
      if used >= |es| {
        var perm := Identity(n);
        es := es + [PermEntry(perm, n)];
        if used > MaxUses {
          return None;
        }
      }
      assert PermOk(es[used], n);
      var e, v := DrawFrom(es[used], n);
      r := Some(v);
      table := table[h := KeyEntry(used + 1, es[used := e])];
    }

    /** The loop filling a new permutation with `0 .. n - 1`. */
    static method Identity(n: nat) returns (perm: seq<int>)
      ensures perm == Range(n)
    {
      perm := [];
      var i := 0;
      while i < n
        invariant 0 <= i <= n && perm == Range(i)
      {
        perm := perm + [i];
        i := i + 1;
      }
    }

    /** One permutation's step of `random`: reshuffle when it is used up, then hand out the
        entry at its index. */
    method DrawFrom(e: PermEntry, n: int) returns (e': PermEntry, v: int)
      requires |e.perm| == n > 1 && e.i >= 0
      modifies rng
      ensures (e', rng.state) == Drawn1(e, old(rng.state), n) && v == e'.perm[e'.i - 1]
    {
      e' := e;
      if e.i >= n {
        var shuffled := rng.ShuffleSeq(e.perm);
        e' := PermEntry(shuffled, 0);
      }
      v := e'.perm[e'.i];
      e' := e'.(i := e'.i + 1);
    }
  }
}
