// src/parser.hpp: fuzzy name matching, the cursor-based `StringParser`, and the buff and minion
// grammar of the board files. A `const char*` cursor is a string and an index into it; the
// terminating NUL is what `At` reads at the string's length.
module Parser {
  import opened Util
  import opened MinionInfo
  import opened Minions

  /** A C string: no NUL inside, so its end is its length. */
  type CStr = s: string | '\0' !in s

  /** `*p` for a cursor `p` at index `i`: the character, or the terminating NUL. */
  function At(s: string, i: nat): char {
    if i < |s| then s[i] else '\0'
  }

  predicate IgnoredChar(c: char) {
    IsSpace(c) || c == '\'' || c == '-' || c == '_' || c == ':'
  }

  predicate IsWordEnd(c: char) {
    c == '\0' || IsSpace(c) || c == ',' || c == ':'
  }

  predicate IsTokenEnd(c: char) {
    c == '\0' || c == ','
  }


  // ---------------------------------------------------------------------------
  // The key of a name: what the matchers compare

  /** What a character contributes to a name's key: nothing if it is ignored, else its lower
      case. */
  function KeyOf(c: char): string {
    if IgnoredChar(c) then [] else [ToLower(c)]
  }

  /** The key of `s[i..k]`: its characters that are not ignored, in lower case. */
  function Keys(s: string, i: nat, k: nat): (r: string)
    requires i <= k <= |s|
    decreases k - i
  {
    if k == i then [] else Keys(s, i, k - 1) + KeyOf(s[k - 1])
  }

  lemma {:induction false} KeysSplit(s: string, i: nat, j: nat, k: nat)
    requires i <= j <= k <= |s|
    ensures Keys(s, i, k) == Keys(s, i, j) + Keys(s, j, k)
    decreases k - j
  {
    if k > j {
      KeysSplit(s, i, j, k - 1);
      assert Keys(s, i, k) == Keys(s, i, j) + Keys(s, j, k - 1) + KeyOf(s[k - 1]);
    }
  }

  lemma KeysFront(s: string, i: nat, k: nat)
    requires i < k <= |s|
    ensures Keys(s, i, k) == KeyOf(s[i]) + Keys(s, i + 1, k)
  {
    KeysSplit(s, i, i + 1, k);
    assert Keys(s, i, i + 1) == Keys(s, i, i) + KeyOf(s[i]);
  }

  lemma KeysSnoc(s: string, i: nat, k: nat)
    requires i <= k < |s|
    ensures Keys(s, i, k + 1) == Keys(s, i, k) + KeyOf(s[k])
  {
  }

  lemma KeysNone(s: string, i: nat)
    requires i <= |s|
    ensures Keys(s, i, i) == []
  {
  }

  /** A stretch of ignored characters has the empty key. */
  lemma {:induction false} KeysIgnored(s: string, i: nat, k: nat)
    requires i <= k <= |s| && forall x :: i <= x < k ==> IgnoredChar(s[x])
    ensures Keys(s, i, k) == []
    decreases k - i
  {
    if k > i {
      KeysIgnored(s, i, k - 1);
    }
  }

  /** A stretch ending in a character that is not ignored has a non-empty key. */
  lemma KeysLast(s: string, i: nat, k: nat)
    requires i < k <= |s| && !IgnoredChar(s[k - 1])
    ensures |Keys(s, i, k)| > 0
  {
  }

  /** The position after the spaces from `i` on. */
  function SkipSpaces(s: string, i: nat): (r: nat)
    requires i <= |s|
    ensures i <= r <= |s| && (r < |s| ==> !IsSpace(s[r]))
    ensures forall x :: i <= x < r ==> IsSpace(s[x])
    decreases |s| - i
  {
    if i < |s| && IsSpace(s[i]) then SkipSpaces(s, i + 1) else i
  }

  /** The position after the ignored characters from `i` on. */
  function SkipIgnored(s: string, i: nat): (r: nat)
    requires i <= |s|
    ensures i <= r <= |s| && (r < |s| ==> !IgnoredChar(s[r]))
    ensures forall x :: i <= x < r ==> IgnoredChar(s[x])
    decreases |s| - i
  {
    if i < |s| && IgnoredChar(s[i]) then SkipIgnored(s, i + 1) else i
  }

  // ---------------------------------------------------------------------------
  // match_name

  /** `match_name(a, b)`: the two names have the same key. */
  method MatchName(a: CStr, b: CStr) returns (r: bool)
    ensures r <==> Keys(a, 0, |a|) == Keys(b, 0, |b|)
  {
    hide Keys;
    var i, j := 0, 0;
    KeysNone(a, 0);
    KeysNone(b, 0);
    while i < |a| && IgnoredChar(a[i])
      invariant i <= |a| && Keys(a, 0, i) == []
    {
      KeysSnoc(a, 0, i);
      i := i + 1;
    }
    while j < |b| && IgnoredChar(b[j])
      invariant j <= |b| && Keys(b, 0, j) == []
    {
      KeysSnoc(b, 0, j);
      j := j + 1;
    }
    while i < |a| && j < |b|
      invariant i <= |a| && j <= |b| && Keys(a, 0, i) == Keys(b, 0, j)
      invariant i < |a| ==> !IgnoredChar(a[i])
      invariant j < |b| ==> !IgnoredChar(b[j])
      decreases |a| - i
    {
      if ToLower(a[i]) != ToLower(b[j]) {
        KeysDiverge(a, i, b, j);
        return false;
      }
      KeysSnoc(a, 0, i);
      KeysSnoc(b, 0, j);
      i, j := i + 1, j + 1;
      ghost var key := Keys(a, 0, i);
      while i < |a| && IgnoredChar(a[i])
        invariant i <= |a| && Keys(a, 0, i) == key
      {
        KeysSnoc(a, 0, i);
        i := i + 1;
      }
      while j < |b| && IgnoredChar(b[j])
        invariant j <= |b| && Keys(b, 0, j) == key
      {
        KeysSnoc(b, 0, j);
        j := j + 1;
      }
    }
    if j < |b| {
      KeysDiverge(a, i, b, j);
    } else if i < |a| {
      KeysDiverge(b, j, a, i);
    }
    r := i == |a| && j == |b|;
  }

  /** Two scans that agree so far part ways when the second meets a key character the first
      does not have. */
  lemma KeysDiverge(a: string, i: nat, b: string, j: nat)
    requires i <= |a| && j < |b| && Keys(a, 0, i) == Keys(b, 0, j) && !IgnoredChar(b[j])
    requires i == |a| || (!IgnoredChar(a[i]) && ToLower(a[i]) != ToLower(b[j]))
    ensures Keys(a, 0, |a|) != Keys(b, 0, |b|)
  {
    var k := Keys(a, 0, i);
    KeysSplit(b, 0, j, |b|);
    KeysFront(b, j, |b|);
    assert Keys(b, 0, |b|)[|k|] == ToLower(b[j]);
    if i < |a| {
      KeysSplit(a, 0, i, |a|);
      KeysFront(a, i, |a|);
      assert Keys(a, 0, |a|)[|k|] == ToLower(a[i]);
    }
  }

  // ---------------------------------------------------------------------------
  // match_name_or_prefix

  /** The key `a[start..m]` presents to a query: its first character as it is, then the key of
      the rest. */
  function PrefixKey(s: string, start: nat, m: nat): string
    requires start <= m <= |s|
  {
    if m == start then [] else [ToLower(s[start])] + Keys(s, start + 1, m)
  }

  /** `m` is just after a compared character: the first one, or one that is not ignored. */
  predicate EndsOnKey(s: string, start: nat, m: nat)
    requires start <= m <= |s|
  {
    m <= start + 1 || !IgnoredChar(s[m - 1])
  }

  /** The position after the query's last compared character. */
  function LastKeyEnd(b: string, lo: nat, k: nat): (r: nat)
    requires lo < k <= |b|
    ensures lo < r <= k && EndsOnKey(b, lo, r)
    ensures forall x :: r <= x < k ==> IgnoredChar(b[x])
    decreases k
  {
    if k == lo + 1 || !IgnoredChar(b[k - 1]) then k else LastKeyEnd(b, lo, k - 1)
  }

  /** The query goes on, with ignored characters only, after its last compared character. */
  predicate Tail(b: string) {
    var sb := SkipSpaces(b, 0);
    sb < |b| && LastKeyEnd(b, sb, |b|) < |b|
  }

  /** `a[SkipSpaces(a, pos)..m]` presents the whole query's key and ends on a compared
      character. */
  predicate Matches(a: string, pos: nat, b: string, m: nat)
    requires pos <= |a|
  {
    var sa := SkipSpaces(a, pos);
    var sb := SkipSpaces(b, 0);
    sa <= m <= |a| && EndsOnKey(a, sa, m) && PrefixKey(a, sa, m) == PrefixKey(b, sb, |b|)
  }

  /** Where the cursor in `a` stops after a match ending at `m`: past further ignored characters
      when the query has a tail. */
  function End(a: string, m: nat, b: string): nat
    requires m <= |a|
  {
    if Tail(b) then SkipIgnored(a, m) else m
  }

  /** `match_name_or_prefix(a + pos, b)`: the position in `a` after the query, when the query
      matches there and a word ends; `None` for the null pointer. */
  ghost function PrefixMatch(a: string, pos: nat, b: string): (r: Option<nat>)
    requires pos <= |a|
    ensures r.Some? <==> exists m :: Matches(a, pos, b, m) && IsWordEnd(At(a, End(a, m, b)))
    ensures r.Some? ==> exists m :: Matches(a, pos, b, m) && r.value == End(a, m, b)
    ensures r.Some? ==> SkipSpaces(a, pos) <= r.value <= |a| && IsWordEnd(At(a, r.value))
  {
    if exists m :: Matches(a, pos, b, m) && IsWordEnd(At(a, End(a, m, b))) then
      var m :| Matches(a, pos, b, m) && IsWordEnd(At(a, End(a, m, b)));
      Some(End(a, m, b))
    else Option.None
  }

  lemma PrefixKeyEmpty(s: string, start: nat)
    requires start <= |s|
    ensures PrefixKey(s, start, start) == []
  {
  }

  lemma PrefixKeySplit(s: string, start: nat, m: nat, k: nat)
    requires start < m <= k <= |s|
    ensures PrefixKey(s, start, k) == PrefixKey(s, start, m) + Keys(s, m, k)
  {
    hide Keys, PrefixKey;
    KeysSplit(s, start + 1, m, k);
    PrefixKeyUnfold(s, start, k);
    PrefixKeyUnfold(s, start, m);
    var c, u, v := [ToLower(s[start])], Keys(s, start + 1, m), Keys(s, m, k);
    assert c + (u + v) == (c + u) + v;
  }

  lemma PrefixKeyUnfold(s: string, start: nat, m: nat)
    requires start < m <= |s|
    ensures PrefixKey(s, start, m) == [ToLower(s[start])] + Keys(s, start + 1, m)
  {
  }

  /** A query matches at most one stretch of `a`. */
  lemma MatchesUnique(a: string, pos: nat, b: string, m1: nat, m2: nat)
    requires pos <= |a| && Matches(a, pos, b, m1) && Matches(a, pos, b, m2)
    ensures m1 == m2
  {
    var sa := SkipSpaces(a, pos);
    if m1 < m2 {
      MatchesOrdered(a, sa, m1, m2);
    } else if m2 < m1 {
      MatchesOrdered(a, sa, m2, m1);
    }
  }

  lemma MatchesOrdered(a: string, sa: nat, m1: nat, m2: nat)
    requires sa <= m1 < m2 <= |a| && EndsOnKey(a, sa, m2)
    ensures PrefixKey(a, sa, m1) != PrefixKey(a, sa, m2)
  {
    if m1 > sa {
      PrefixKeySplit(a, sa, m1, m2);
      KeysLast(a, m1, m2);
    }
  }

  /** No stretch of `a` from `sa` presents `q` when the scan, having read `PrefixKey(a, sa, ma)`
      and skipped to `i`, already falls short of `q`: `a` ends, or its next key character
      differs from `q`'s next one, `c`. */
  lemma NoMatchBeyond(a: string, sa: nat, ma: nat, i: nat, q: string, c: char)
    requires sa <= ma <= i <= |a|
    requires ma == sa ==> i == sa
    requires ma > sa ==> Keys(a, ma, i) == [] && (i < |a| ==> !IgnoredChar(a[i]))
    requires |q| > |PrefixKey(a, sa, ma)| && q[|PrefixKey(a, sa, ma)|] == c
    requires i < |a| ==> ToLower(a[i]) != c
    ensures forall m :: sa <= m <= |a| ==> PrefixKey(a, sa, m) != q
  {
    var p := PrefixKey(a, sa, ma);
    forall m | sa <= m <= |a|
      ensures PrefixKey(a, sa, m) != q
    {
      if m <= i {
        if m > sa {
          PrefixKeySplit(a, sa, m, i);
          if ma > sa {
            PrefixKeySplit(a, sa, ma, i);
          }
        }
        assert |PrefixKey(a, sa, m)| <= |p|;
      } else if ma == sa {
        assert PrefixKey(a, sa, m)[0] == ToLower(a[sa]);
      } else {
        PrefixKeySplit(a, sa, ma, m);
        KeysSplit(a, ma, i, m);
        KeysFront(a, i, m);
        assert PrefixKey(a, sa, m)[|p|] == ToLower(a[i]);
      }
    }
  }

  /** The query's side of a scan state: `q`'s key goes on with `b[j]`. */
  lemma QueryContinues(b: string, sb: nat, mb: nat, j: nat)
    requires sb <= mb <= j < |b|
    requires mb == sb ==> j == sb
    requires mb > sb ==> Keys(b, mb, j) == [] && !IgnoredChar(b[j])
    ensures var q := PrefixKey(b, sb, |b|);
      |q| > |PrefixKey(b, sb, mb)| && q[|PrefixKey(b, sb, mb)|] == ToLower(b[j])
  {
    if mb > sb {
      PrefixKeySplit(b, sb, mb, |b|);
      KeysSplit(b, mb, j, |b|);
      KeysFront(b, j, |b|);
    }
  }

  /** The query is used up at `mb`: the rest of it is ignored characters, and it has a tail
      exactly when that rest is not empty. */
  lemma QueryDone(b: string, sb: nat, mb: nat)
    requires sb == SkipSpaces(b, 0) && sb < mb <= |b| && EndsOnKey(b, sb, mb)
    requires forall x :: mb <= x < |b| ==> IgnoredChar(b[x])
    ensures PrefixKey(b, sb, |b|) == PrefixKey(b, sb, mb)
    ensures Tail(b) <==> mb < |b|
  {
    KeysIgnored(b, mb, |b|);
    PrefixKeySplit(b, sb, mb, |b|);
    LastKeyEndIs(b, sb, mb, |b|);
  }

  lemma {:induction false} LastKeyEndIs(b: string, lo: nat, m: nat, k: nat)
    requires lo < m <= k <= |b| && EndsOnKey(b, lo, m)
    requires forall x :: m <= x < k ==> IgnoredChar(b[x])
    ensures LastKeyEnd(b, lo, k) == m
    decreases k
  {
    if k > m {
      LastKeyEndIs(b, lo, m, k - 1);
    }
  }

  /** `match_name_or_prefix`: skip leading spaces in both; compare character by character
      ignoring case, and, while the query goes on, skip ignored characters in both; succeed
      when the query is used up where a word of `a` ends. */
  method MatchNameOrPrefix(a: CStr, pos: nat, b: CStr) returns (r: Option<nat>)
    requires pos <= |a|
    ensures r == PrefixMatch(a, pos, b)
  {
    hide Keys, PrefixKey, PrefixMatch, Matches, End;
    var i := SkipSpacesFrom(a, pos);
    var j := SkipSpacesFrom(b, 0);
    ghost var sa, sb := i, j;
    ghost var ma, mb := i, j;
    PrefixKeyEmpty(a, i);
    PrefixKeyEmpty(b, j);
    while i < |a| && j < |b|
      invariant sa <= ma <= i <= |a| && sb <= mb <= j <= |b|
      invariant sa == SkipSpaces(a, pos) && sb == SkipSpaces(b, 0)
      invariant PrefixKey(a, sa, ma) == PrefixKey(b, sb, mb)
      invariant EndsOnKey(a, sa, ma) && EndsOnKey(b, sb, mb)
      invariant mb == sb ==> ma == sa && i == sa && j == sb
      invariant mb > sb ==> ma > sa
      invariant mb > sb && mb < |b| ==> i == SkipIgnored(a, ma) && j == SkipIgnored(b, mb)
      invariant mb == |b| ==> i == ma && j == mb
      decreases |a| - i
    {
      if ToLower(a[i]) != ToLower(b[j]) {
        NoMatchHere(a, pos, b, ma, i, mb, j);
        return Option.None;
      }
      MatchStep(a, sa, ma, i, b, sb, mb, j);
      i, j := i + 1, j + 1;
      ma, mb := i, j;
      if j < |b| {
        i := SkipIgnoredFrom(a, i);
        j := SkipIgnoredFrom(b, j);
      }
    }
    if j < |b| {
      NoMatchHere(a, pos, b, ma, i, mb, j);
      return Option.None;
    }
    MatchHere(a, pos, b, ma, i, mb);
    if IsWordEnd(At(a, i)) {
      r := Some(i);
    } else {
      r := Option.None;
    }
  }

  /** The loop `while (isspace(*p)) ++p`. */
  method SkipSpacesFrom(s: CStr, i0: nat) returns (i: nat)
    requires i0 <= |s|
    ensures i == SkipSpaces(s, i0)
  {
    i := i0;
    while i < |s| && IsSpace(s[i])
      invariant i0 <= i <= |s| && SkipSpaces(s, i) == SkipSpaces(s, i0)
    {
      i := i + 1;
    }
  }

  /** The loop `while (*p && ignored_char(*p)) ++p`. */
  method SkipIgnoredFrom(s: CStr, i0: nat) returns (i: nat)
    requires i0 <= |s|
    ensures i == SkipIgnored(s, i0)
  {
    i := i0;
    while i < |s| && IgnoredChar(s[i])
      invariant i0 <= i <= |s| && SkipIgnored(s, i) == SkipIgnored(s, i0)
    {
      i := i + 1;
    }
  }

  /** One compared pair of equal characters extends both keys alike. */
  lemma MatchStep(a: string, sa: nat, ma: nat, i: nat, b: string, sb: nat, mb: nat, j: nat)
    requires sa <= ma <= i < |a| && sb <= mb <= j < |b| && ToLower(a[i]) == ToLower(b[j])
    requires PrefixKey(a, sa, ma) == PrefixKey(b, sb, mb)
    requires mb == sb ==> ma == sa && i == sa && j == sb
    requires mb > sb ==> ma > sa && i == SkipIgnored(a, ma) && j == SkipIgnored(b, mb)
    ensures PrefixKey(a, sa, i + 1) == PrefixKey(b, sb, j + 1)
    ensures EndsOnKey(a, sa, i + 1) && EndsOnKey(b, sb, j + 1)
  {
    if mb > sb {
      PrefixKeyExtend(a, sa, ma, i);
      PrefixKeyExtend(b, sb, mb, j);
    } else {
      PrefixKeyFirst(a, i);
      PrefixKeyFirst(b, j);
    }
  }

  /** The first compared character alone presents its lower case. */
  lemma PrefixKeyFirst(s: string, start: nat)
    requires start < |s|
    ensures PrefixKey(s, start, start + 1) == [ToLower(s[start])]
  {
    KeysNone(s, start + 1);
  }

  /** Skipping ignored characters and comparing one more adds that character's lower case. */
  lemma PrefixKeyExtend(s: string, start: nat, m: nat, i: nat)
    requires start < m <= i < |s| && i == SkipIgnored(s, m)
    ensures PrefixKey(s, start, i + 1) == PrefixKey(s, start, m) + [ToLower(s[i])]
    ensures EndsOnKey(s, start, i + 1)
  {
    hide Keys, PrefixKey;
    KeysIgnored(s, m, i);
    PrefixKeySplit(s, start, m, i + 1);
    KeysSnoc(s, m, i);
    assert !IgnoredChar(s[i]);
  }

  /** A scan that stops short of the query's end, on a mismatch or at the end of `a`, has no
      match. */
  lemma NoMatchHere(a: string, pos: nat, b: string, ma: nat, i: nat, mb: nat, j: nat)
    requires pos <= |a|
    requires var sa := SkipSpaces(a, pos); var sb := SkipSpaces(b, 0);
      && sa <= ma <= i <= |a| && sb <= mb <= j < |b|
      && PrefixKey(a, sa, ma) == PrefixKey(b, sb, mb)
      && (mb == sb ==> ma == sa && i == sa && j == sb)
      && (mb > sb ==> ma > sa && i == SkipIgnored(a, ma) && j == SkipIgnored(b, mb))
    requires i < |a| ==> ToLower(a[i]) != ToLower(b[j])
    ensures PrefixMatch(a, pos, b) == Option.None
  {
    var sa, sb := SkipSpaces(a, pos), SkipSpaces(b, 0);
    if mb > sb {
      KeysIgnored(a, ma, i);
      KeysIgnored(b, mb, j);
    }
    QueryContinues(b, sb, mb, j);
    NoMatchBeyond(a, sa, ma, i, PrefixKey(b, sb, |b|), ToLower(b[j]));
  }

  /** A scan that uses up the query matches at `ma`, and its cursor is where that match
      ends. */
  lemma MatchHere(a: string, pos: nat, b: string, ma: nat, i: nat, mb: nat)
    requires pos <= |a|
    requires var sa := SkipSpaces(a, pos); var sb := SkipSpaces(b, 0);
      && sa <= ma <= i <= |a| && sb <= mb <= |b|
      && PrefixKey(a, sa, ma) == PrefixKey(b, sb, mb)
      && EndsOnKey(a, sa, ma) && EndsOnKey(b, sb, mb)
      && (mb == sb ==> ma == sa && i == sa && mb == |b|)
      && (mb > sb ==> ma > sa)
      && (mb > sb && mb < |b| ==> i == SkipIgnored(a, ma) && |b| == SkipIgnored(b, mb))
      && (mb == |b| ==> i == ma)
    ensures Matches(a, pos, b, ma) && End(a, ma, b) == i
    ensures PrefixMatch(a, pos, b) == if IsWordEnd(At(a, i)) then Some(i) else Option.None
  {
    var sb := SkipSpaces(b, 0);
    if mb > sb {
      QueryDone(b, sb, mb);
    }
    var r := PrefixMatch(a, pos, b);
    if r.Some? {
      var m :| Matches(a, pos, b, m) && r.value == End(a, m, b);
      MatchesUnique(a, pos, b, m, ma);
    }
  }

  // ---------------------------------------------------------------------------
  // sscanf("%d%n")

  function DigitValue(c: char): nat {
    if IsDigit(c) then c as int - '0' as int else 0
  }

  /** The value of a run of decimal digits. */
  function DigitsValue(d: string): nat {
    if d == [] then 0 else DigitsValue(d[..|d| - 1]) * 10 + DigitValue(d[|d| - 1])
  }

  /** The position after the digits from `i` on. */
  function SkipDigits(s: string, i: nat): (r: nat)
    requires i <= |s|
    ensures i <= r <= |s| && (r < |s| ==> !IsDigit(s[r]))
    ensures forall x :: i <= x < r ==> IsDigit(s[x])
    decreases |s| - i
  {
    if i < |s| && IsDigit(s[i]) then SkipDigits(s, i + 1) else i
  }

  /** `sscanf(s + i, "%d%n", &v, &n) >= 1`: after white space, an optional sign and at least one
      digit; the value read and the position after it (`i + n`), or `None`. */
  function ScanInt(s: string, i: nat): (r: Option<(int, nat)>)
    requires i <= |s|
    ensures r.Some? <==> (var k := SignEnd(s, SkipSpaces(s, i)); k < |s| && IsDigit(s[k]))
    ensures r.Some? ==> i < r.value.1 <= |s| && !IsDigit(At(s, r.value.1))
  {
    var j := SkipSpaces(s, i);
    var k := SignEnd(s, j);
    var e := SkipDigits(s, k);
    if e == k then Option.None
    else
      var v: int := DigitsValue(s[k..e]);
      Some((if At(s, j) == '-' then -v else v, e))
  }

  /** The position after an optional `+` or `-`. */
  function SignEnd(s: string, j: nat): (k: nat)
    requires j <= |s|
    ensures j <= k <= |s|
  {
    if At(s, j) == '+' || At(s, j) == '-' then j + 1 else j
  }

  lemma {:induction false} DigitsOfNat(n: nat)
    ensures DigitsValue(NatToString(n)) == n
    decreases n
  {
    var d := NatToString(n);
    if n >= 10 {
      DigitsOfNat(n / 10);
      assert d[..|d| - 1] == NatToString(n / 10);
    }
  }

  lemma {:induction false} SkipDigitsTo(s: string, i: nat, e: nat)
    requires i <= e <= |s| && (e < |s| ==> !IsDigit(s[e]))
    requires forall x :: i <= x < e ==> IsDigit(s[x])
    ensures SkipDigits(s, i) == e
    decreases e - i
  {
    if i < e {
      SkipDigitsTo(s, i + 1, e);
    }
  }

  /** The partner of `IntToString`: reading back a number that is not followed by a digit gives
      the number and the position after it. */
  lemma ScanIntToString(n: int, rest: string)
    requires rest == [] || !IsDigit(rest[0])
    ensures var w := IntToString(n); ScanInt(w + rest, 0) == Some((n, |w|))
  {
    var w := IntToString(n);
    var s := w + rest;
    var d := NatToString(if n < 0 then -n else n);
    var k := if n < 0 then 1 else 0;
    assert w == if n < 0 then "-" + d else d;
    assert s[k..|w|] == d;
    assert SkipSpaces(s, 0) == 0;
    assert SignEnd(s, 0) == k;
    SkipDigitsTo(s, k, |w|);
    DigitsOfNat(if n < 0 then -n else n);
  }

  /** `ScanIntToString` at any position: a number written at `i` and not followed by a digit is
      read back there. */
  lemma ScanIntAt(s: string, i: nat, n: int)
    requires IsPrefixAt(s, i, IntToString(n))
    requires i + |IntToString(n)| == |s| || !IsDigit(s[i + |IntToString(n)|])
    ensures ScanInt(s, i) == Some((n, i + |IntToString(n)|))
  {
    var w := IntToString(n);
    var e := i + |w|;
    var d := NatToString(if n < 0 then -n else n);
    var k := if n < 0 then i + 1 else i;
    assert w == if n < 0 then "-" + d else d;
    assert s[i..e] == w;
    assert s[k..e] == d;
    assert SkipSpaces(s, i) == i;
    assert SignEnd(s, i) == k;
    SkipDigitsTo(s, k, e);
    DigitsOfNat(if n < 0 then -n else n);
  }

  // ---------------------------------------------------------------------------
  // StringParser

  /** `query` stands at position `i` of `s`, byte for byte. */
  predicate IsPrefixAt(s: string, i: nat, query: string) {
    i + |query| <= |s| && s[i..i + |query|] == query
  }

  /** Where `match(query)` leaves a cursor at `i`: after the match, or at `i` when there is
      none. */
  ghost function MatchPos(s: string, i: nat, query: string): (r: nat)
    requires i <= |s|
    ensures r <= |s|
  {
    var m := PrefixMatch(s, i, query);
    if m.Some? then m.value else i
  }

  /** The remainder from `i` is white space up to a `#` comment or the end: the position of the
      `#` or of the end, or `None` when something else comes first. */
  function BlankTo(s: string, i: nat): (r: Option<nat>)
    requires i <= |s|
    ensures r.Some? ==> i <= r.value <= |s| && (r.value == |s| || s[r.value] == '#')
    ensures r.Some? ==> forall x :: i <= x < r.value ==> IsSpace(s[x])
    ensures r.None? ==>
      exists x :: i <= x < |s| && !IsSpace(s[x]) && s[x] != '#' && forall y :: i <= y < x ==> IsSpace(s[y])
    decreases |s| - i
  {
    if i == |s| || s[i] == '#' then Some(i)
    else if IsSpace(s[i]) then BlankTo(s, i + 1)
    else Option.None
  }

  /** The position after the token from `j`: up to a `,` or the end. */
  function TokenEnd(s: string, j: nat): (r: nat)
    requires j <= |s|
    ensures j <= r <= |s| && IsTokenEnd(At(s, r))
    ensures forall x :: j <= x < r ==> s[x] != ','
    decreases |s| - j
  {
    if j == |s| || s[j] == ',' then j else TokenEnd(s, j + 1)
  }

  /** `next_token()`: after white space, the text up to the next `,` or the end of the line, or
      `"<end of line>"` when nothing is left. */
  function NextTokenOf(s: string, i: nat): (t: string)
    requires i <= |s|
    ensures SkipSpaces(s, i) == |s| ==> t == "<end of line>"
    ensures SkipSpaces(s, i) < |s| ==>
      (|t| > 0 ==> !IsSpace(t[0])) && ',' !in t && IsPrefixAt(s, SkipSpaces(s, i), t)
  {
    var j := SkipSpaces(s, i);
    if j == |s| then "<end of line>" else s[j..TokenEnd(s, j)]
  }

  /** The cursor of `StringParser` over one line. The error handler's output is not modelled. */
  class StringParser {
    const text: CStr
    var pos: nat

    predicate Valid()
      reads this
    {
      pos <= |text|
    }

    constructor(text: CStr)
      ensures this.text == text && pos == 0 && Valid()
    {
      this.text := text;
      pos := 0;
    }

    /** `peek()`: the character at the cursor, NUL at the end. */
    function Peek(): char
      reads this
    {
      At(text, pos)
    }

    /** `end()`. */
    predicate AtEnd()
      reads this
    {
      pos >= |text|
    }

    /** `match(query)`: advance past a fuzzy match of `query`, or do nothing. */
    method Match(query: CStr) returns (ok: bool)
      requires Valid()
      modifies this
      ensures Valid()
      ensures ok == PrefixMatch(text, old(pos), query).Some?
      ensures pos == MatchPos(text, old(pos), query)
      ensures !ok ==> pos == old(pos)
    {
      var r := MatchNameOrPrefix(text, pos, query);
      if r.Some? {
        pos := r.value;
        ok := true;
      } else {
        ok := false;
      }
    }

    /** `exact_match(query)`: advance past `query` when it stands at the cursor byte for byte. */
    method ExactMatch(query: CStr) returns (ok: bool)
      requires Valid()
      modifies this
      ensures Valid()
      ensures ok == IsPrefixAt(text, old(pos), query)
      ensures pos == if ok then old(pos) + |query| else old(pos)
    {
      var k := 0;
      while k < |query|
        invariant k <= |query| && pos + k <= |text| && text[pos..pos + k] == query[..k]
      {
        if At(text, pos + k) != query[k] {
          assert pos + |query| <= |text| ==> text[pos..pos + |query|][k] != query[k];
          return false;
        }
        k := k + 1;
      }
      assert query[..k] == query;
      pos := pos + |query|;
      ok := true;
    }

    /** `match_int(out)`: read a number with `sscanf`, advancing past it on success. */
    method MatchInt() returns (ok: bool, n: int)
      requires Valid()
      modifies this
      ensures Valid()
      ensures ScanInt(text, old(pos)) == if ok then Some((n, pos)) else Option.None
      ensures !ok ==> pos == old(pos)
    {
      var r := ScanInt(text, pos);
      if r.Some? {
        n, pos := r.value.0, r.value.1;
        ok := true;
      } else {
        ok, n := false, 0;
      }
    }

    /** `skip_ws()`. */
    method SkipWs()
      requires Valid()
      modifies this
      ensures Valid() && pos == SkipSpaces(text, old(pos))
    {
      pos := SkipSpacesFrom(text, pos);
    }

    /** `match_end()`: the rest of the line is blank or a comment; the cursor stops at the `#` or
        the end, and stays where it was on failure. */
    method MatchEnd() returns (ok: bool)
      requires Valid()
      modifies this
      ensures Valid()
      ensures ok == BlankTo(text, old(pos)).Some?
      ensures pos == if ok then BlankTo(text, old(pos)).value else old(pos)
    {
      var at := pos;
      while pos < |text|
        invariant at <= pos <= |text| && BlankTo(text, pos) == BlankTo(text, at)
      {
        if text[pos] == '#' {
          break;
        }
        if !IsSpace(text[pos]) {
          pos := at;
          return false;
        }
        pos := pos + 1;
      }
      ok := true;
    }

    /** `parse_end()`: `match_end()`, reporting an error on failure. */
    method ParseEnd() returns (ok: bool)
      requires Valid()
      modifies this
      ensures Valid()
      ensures ok == BlankTo(text, old(pos)).Some?
      ensures pos == if ok then BlankTo(text, old(pos)).value else old(pos)
    {
      ok := MatchEnd();
    }

    /** `parse_int(out)`: `match_int(out)`, reporting an error on failure. */
    method ParseInt() returns (ok: bool, n: int)
      requires Valid()
      modifies this
      ensures Valid()
      ensures ScanInt(text, old(pos)) == if ok then Some((n, pos)) else Option.None
      ensures !ok ==> pos == old(pos)
    {
      ok, n := MatchInt();
    }

    /** `parse_positive(out)`: a number greater than zero; anything else leaves the cursor. */
    method ParsePositive() returns (ok: bool, n: int)
      requires Valid()
      modifies this
      ensures Valid()
      ensures ok <==> ScanInt(text, old(pos)).Some? && ScanInt(text, old(pos)).value.0 > 0
      ensures ok ==> (n, pos) == ScanInt(text, old(pos)).value
      ensures !ok ==> pos == old(pos)
    {
      var at := pos;
      ok, n := MatchInt();
      if ok && n > 0 {
        return;
      }
      pos := at;
      ok := false;
    }

    /** `parse_non_negative(out)`: a number of at least zero; anything else leaves the cursor. */
    method ParseNonNegative() returns (ok: bool, n: int)
      requires Valid()
      modifies this
      ensures Valid()
      ensures ok <==> ScanInt(text, old(pos)).Some? && ScanInt(text, old(pos)).value.0 >= 0
      ensures ok ==> (n, pos) == ScanInt(text, old(pos)).value && n >= 0
      ensures !ok ==> pos == old(pos)
    {
      var at := pos;
      ok, n := MatchInt();
      if ok && n >= 0 {
        return;
      }
      pos := at;
      ok := false;
    }

    /** `next_token()`, the text error messages quote. */
    method NextToken() returns (t: string)
      requires Valid()
      ensures t == NextTokenOf(text, pos)
    {
      var start := SkipSpacesFrom(text, pos);
      if start == |text| {
        return "<end of line>";
      }
      var end := start;
      while end < |text| && text[end] != ','
        invariant start <= end <= |text| && TokenEnd(text, end) == TokenEnd(text, start)
      {
        end := end + 1;
      }
      t := text[start..end];
    }
  }

  // ---------------------------------------------------------------------------
  // Facts about match_name_or_prefix used by the grammar

  /** A query that starts with a character that is not a space. */
  predicate NonBlank(q: string) {
    |q| > 0 && !IsSpace(q[0])
  }

  /** A match of a non-blank query consumes at least one character. */
  lemma MatchAdvances(a: string, pos: nat, q: string)
    requires pos <= |a| && NonBlank(q) && PrefixMatch(a, pos, q).Some?
    ensures PrefixMatch(a, pos, q).value > pos
  {
    var m :| Matches(a, pos, q, m) && PrefixMatch(a, pos, q).value == End(a, m, q);
    assert PrefixKey(q, SkipSpaces(q, 0), |q|) != [];
  }

  /** Nothing matches a non-blank query where only spaces are left. */
  lemma NoMatchAtEnd(a: string, pos: nat, q: string)
    requires pos <= |a| && SkipSpaces(a, pos) == |a| && NonBlank(q)
    ensures PrefixMatch(a, pos, q) == Option.None
  {
    assert PrefixKey(q, SkipSpaces(q, 0), |q|) != [];
    forall m | |a| <= m <= |a|
      ensures !Matches(a, pos, q, m)
    {
      assert PrefixKey(a, |a|, m) == [];
    }
  }

  /** The keys of equal stretches are equal. */
  lemma {:induction false} KeysShift(a: string, d: nat, q: string, x: nat, y: nat)
    requires d + |q| <= |a| && a[d..d + |q|] == q && x <= y <= |q|
    ensures Keys(a, d + x, d + y) == Keys(q, x, y)
    decreases y - x
  {
    if y > x {
      KeysShift(a, d, q, x, y - 1);
      assert a[d + y - 1] == a[d..d + |q|][y - 1];
    }
  }

  /** A query standing literally after the spaces, starting with no space and ending on a
      character that is not ignored, matches exactly when a word ends after it. */
  lemma LiteralMatch(a: string, pos: nat, q: string)
    requires pos <= |a| && |q| > 0 && !IsSpace(q[0]) && !IgnoredChar(q[|q| - 1])
    requires IsPrefixAt(a, SkipSpaces(a, pos), q)
    ensures var e := SkipSpaces(a, pos) + |q|;
      PrefixMatch(a, pos, q) == if IsWordEnd(At(a, e)) then Some(e) else Option.None
  {
    var sa := SkipSpaces(a, pos);
    var e := sa + |q|;
    KeysShift(a, sa, q, 1, |q|);
    assert a[sa] == a[sa..e][0];
    assert a[e - 1] == a[sa..e][|q| - 1];
    assert PrefixKey(a, sa, e) == PrefixKey(q, 0, |q|);
    assert LastKeyEnd(q, 0, |q|) == |q|;
    assert Matches(a, pos, q, e) && End(a, e, q) == e;
    var r := PrefixMatch(a, pos, q);
    if r.Some? {
      var m :| Matches(a, pos, q, m) && r.value == End(a, m, q);
      MatchesUnique(a, pos, q, m, e);
    }
  }

  // ---------------------------------------------------------------------------
  // Table lookups: match_minion_type, match_hero_power, parse_hero_type

  /** Names a C string can hold. */
  predicate CNames(names: seq<string>) {
    forall k :: 0 <= k < |names| ==> '\0' !in names[k]
  }

  /** The first of `names`, from index `k` on, that `match` accepts at `i`. */
  ghost function FirstMatch(s: string, i: nat, names: seq<string>, k: nat): (r: Option<nat>)
    requires i <= |s| && k <= |names|
    ensures r.Some? ==> k <= r.value < |names|
    decreases |names| - k
  {
    if k == |names| then Option.None
    else if PrefixMatch(s, i, names[k]).Some? then Some(k)
    else FirstMatch(s, i, names, k + 1)
  }

  /** When no name matches, `FirstMatch` finds none. */
  lemma {:induction false} NoneMatch(s: string, i: nat, names: seq<string>, k: nat)
    requires i <= |s| && k <= |names|
    requires forall x :: k <= x < |names| ==> PrefixMatch(s, i, names[x]).None?
    ensures FirstMatch(s, i, names, k).None?
    decreases |names| - k
  {
    hide PrefixMatch;
    if k < |names| {
      NoneMatch(s, i, names, k + 1);
    }
  }

  /** `FirstMatch` finds a name that matches, and no earlier one does; `None` when none does. */
  lemma {:induction false} FirstMatchIsFirst(s: string, i: nat, names: seq<string>, k: nat)
    requires i <= |s| && k <= |names|
    ensures var r := FirstMatch(s, i, names, k);
      && (r.Some? ==> PrefixMatch(s, i, names[r.value]).Some?)
      && (r.Some? ==> forall x :: k <= x < r.value ==> PrefixMatch(s, i, names[x]).None?)
      && (r.None? ==> forall x :: k <= x < |names| ==> PrefixMatch(s, i, names[x]).None?)
    decreases |names| - k
  {
    hide PrefixMatch;
    if k < |names| && PrefixMatch(s, i, names[k]).None? {
      FirstMatchIsFirst(s, i, names, k + 1);
    }
  }

  /** The loop of `match_minion_type` and `match_hero_power` over a name table: try each name
      in table order and stop at the first match. */
  method MatchFirst(p: StringParser, names: seq<string>) returns (r: Option<nat>)
    requires p.Valid() && CNames(names)
    modifies p
    ensures p.Valid() && r == FirstMatch(p.text, old(p.pos), names, 0)
    ensures p.pos == if r.Some? then MatchPos(p.text, old(p.pos), names[r.value]) else old(p.pos)
  {
    var k := 0;
    while k < |names|
      invariant k <= |names| && p.Valid() && p.pos == old(p.pos)
      invariant FirstMatch(p.text, p.pos, names, k) == FirstMatch(p.text, p.pos, names, 0)
    {
      var ok := p.Match(names[k]);
      if ok {
        return Some(k);
      }
      k := k + 1;
    }
    r := Option.None;
  }

  function MinionNames(c: Catalog): (names: seq<string>)
    ensures |names| == |c.types|
    ensures forall k :: 0 <= k < |c.types| ==> names[k] == c.info(c.types[k]).name
  {
    seq(|c.types|, k requires 0 <= k < |c.types| => c.info(c.types[k]).name)
  }

  function HeroNames(c: Catalog): (names: seq<string>)
    ensures |names| == |c.heroes|
    ensures forall k :: 0 <= k < |c.heroes| ==> names[k] == c.heroes[k].name
  {
    seq(|c.heroes|, k requires 0 <= k < |c.heroes| => c.heroes[k].name)
  }

  /** `match_minion_type`: the first minion type, in enum order, whose name matches. */
  method MatchMinionType(p: StringParser, c: Catalog) returns (r: Option<MinionType>)
    requires p.Valid() && CNames(MinionNames(c))
    modifies p
    ensures p.Valid()
    ensures var f := FirstMatch(p.text, old(p.pos), MinionNames(c), 0);
      r == (if f.Some? then Some(c.types[f.value]) else Option.None)
      && p.pos == (if f.Some? then MatchPos(p.text, old(p.pos), MinionNames(c)[f.value]) else old(p.pos))
  {
    var k := MatchFirst(p, MinionNames(c));
    r := if k.Some? then Some(c.types[k.value]) else Option.None;
  }

  // ---------------------------------------------------------------------------
  // parse_buffs

  /** The outcome of a parse: success, the value built, and where the cursor is left. */
  datatype Parsed<T> = Parsed(ok: bool, value: T, pos: nat)

  /** The keyword buffs `parse_buffs` tries in order, after the numeric `+a/+h` form. */
  const BuffKeywords: seq<string> := [
    "taunt", "divine shield", "poison", "poisonous", "windfury", "microbots", "golden microbots",
    "plants", "Annoy-o-Module", "golden Annoy-o-Module", "Replicating Menace",
    "golden Replicating Menace"]

  /** What the keyword buff at index `k` of `BuffKeywords` does. */
  function KeywordBuff(k: nat, m: Minion): (r: Minion)
    ensures r.kind == m.kind && r.golden == m.golden
  {
    if k == 0 then m.(taunt := true)
    else if k == 1 then m.(divineShield := true)
    else if k <= 3 then m.(poison := true)
    else if k == 4 then m.(windfury := true)
    else if k == 5 then AddDeathrattleMicrobots(m, 3)
    else if k == 6 then AddDeathrattleGoldenMicrobots(m, 3)
    else if k == 7 then AddDeathrattlePlants(m, 2)
    else if k == 8 then Buff(m, 2, 4).(taunt := true, divineShield := true)
    else if k == 9 then Buff(m, 2 * 2, 2 * 4).(taunt := true, divineShield := true)
    else if k == 10 then AddDeathrattleMicrobots(Buff(m, 3, 1), 3)
    else AddDeathrattleGoldenMicrobots(Buff(m, 2 * 3, 2 * 1), 3)
  }

  /** One buff at `i` applied to `m`, and the position after it; `None` when the text there is
      not a buff (the end of the line and an unknown word fail alike, with different
      messages). */
  ghost function BuffAt(s: string, i: nat, m: Minion): (r: Option<(Minion, nat)>)
    requires i <= |s|
    ensures r.Some? ==> i < r.value.1 <= |s|
    ensures r.Some? ==> r.value.0.kind == m.kind && r.value.0.golden == m.golden
  {
    var j := SkipSpaces(s, i);
    if At(s, j) == '+' || At(s, j) == '-' then NumericBuffAt(s, j, m) else KeywordBuffAt(s, j, m)
  }

  /** `+a/+h`, `+a attack` or `+a health` at `j`. */
  ghost function NumericBuffAt(s: string, j: nat, m: Minion): (r: Option<(Minion, nat)>)
    requires j <= |s|
    ensures r.Some? ==> j < r.value.1 <= |s|
    ensures r.Some? ==> r.value.0.kind == m.kind && r.value.0.golden == m.golden
  {
    match ScanInt(s, j)
    case None => Option.None
    case Some((a, k)) =>
      if IsPrefixAt(s, k, "/") then
        match ScanInt(s, k + 1)
        case None => Option.None
        case Some((h, e)) => Some((Buff(m, a, h), e))
      else if PrefixMatch(s, k, "attack").Some? then
        MatchAdvances(s, k, "attack");
        Some((Buff(m, a, 0), MatchPos(s, k, "attack")))
      else if PrefixMatch(s, k, "health").Some? then
        MatchAdvances(s, k, "health");
        Some((Buff(m, 0, a), MatchPos(s, k, "health")))
      else Option.None
  }

  /** The first of `BuffKeywords` that matches at `j`. */
  ghost function KeywordBuffAt(s: string, j: nat, m: Minion): (r: Option<(Minion, nat)>)
    requires j <= |s|
    ensures r.Some? ==> j < r.value.1 <= |s|
    ensures r.Some? ==> r.value.0.kind == m.kind && r.value.0.golden == m.golden
  {
    match FirstMatch(s, j, BuffKeywords, 0)
    case None => Option.None
    case Some(k) =>
      KeywordsNonBlank(k);
      MatchAdvances(s, j, BuffKeywords[k]);
      Some((KeywordBuff(k, m), MatchPos(s, j, BuffKeywords[k])))
  }

  lemma KeywordsNonBlank(k: nat)
    requires k < |BuffKeywords|
    ensures NonBlank(BuffKeywords[k])
  {
  }

  /** `parse_buffs`: buffs separated by commas, applied in turn; on failure the cursor is left
      after the white space before the offending text. */
  ghost function BuffsFrom(s: string, i: nat, m: Minion): (r: Parsed<Minion>)
    requires i <= |s|
    ensures r.pos <= |s|
    decreases |s| - i
  {
    match BuffAt(s, i, m)
    case None => Parsed(false, m, SkipSpaces(s, i))
    case Some((m', k)) =>
      if PrefixMatch(s, k, ",").Some? then
        MatchAdvances(s, k, ",");
        BuffsFrom(s, MatchPos(s, k, ","), m')
      else Parsed(true, m', k)
  }

  /** One round of the loop of `parse_buffs`: read one buff and apply it. */
  method ParseOneBuff(p: StringParser, m0: Minion) returns (ok: bool, m: Minion)
    requires p.Valid()
    modifies p
    ensures p.Valid()
    ensures BuffAt(p.text, old(p.pos), m0) == if ok then Some((m, p.pos)) else Option.None
    ensures !ok ==> m == m0 && p.pos == SkipSpaces(p.text, old(p.pos))
  {
    hide NumericBuffAt, KeywordBuffAt;
    p.SkipWs();
    var c := p.Peek();
    if c == '+' || c == '-' {
      ok, m := ParseNumericBuff(p, m0);
    } else {
      ok, m := ParseKeywordBuff(p, m0);
    }
  }

  method ParseNumericBuff(p: StringParser, m0: Minion) returns (ok: bool, m: Minion)
    requires p.Valid()
    modifies p
    ensures p.Valid()
    ensures NumericBuffAt(p.text, old(p.pos), m0) == if ok then Some((m, p.pos)) else Option.None
    ensures !ok ==> m == m0 && p.pos == old(p.pos)
  {
    hide PrefixMatch, ScanInt;
    m := m0;
    var at := p.pos;
    var attack;
    ok, attack := p.ParseInt();
    if !ok {
      return;
    }
    ok := p.ExactMatch("/");
    if ok {
      var health;
      ok, health := p.MatchInt();
      if ok {
        m := Buff(m, attack, health);
      } else {
        p.pos := at;
      }
      return;
    }
    ok := p.Match("attack");
    if ok {
      m := Buff(m, attack, 0);
      return;
    }
    ok := p.Match("health");
    if ok {
      m := Buff(m, 0, attack);
      return;
    }
    p.pos := at;
  }

  method ParseKeywordBuff(p: StringParser, m0: Minion) returns (ok: bool, m: Minion)
    requires p.Valid()
    modifies p
    ensures p.Valid()
    ensures KeywordBuffAt(p.text, old(p.pos), m0) == if ok then Some((m, p.pos)) else Option.None
    ensures !ok ==> m == m0 && p.pos == old(p.pos)
  {
    hide PrefixMatch;
    m := m0;
    assert CNames(BuffKeywords);
    var k := MatchFirst(p, BuffKeywords);
    ok := k.Some?;
    if ok {
      m := KeywordBuff(k.value, m);
    }
  }

  /** `parse_buffs(in, m)`: buffs while a comma follows each. */
  method ParseBuffs(p: StringParser, m0: Minion) returns (ok: bool, m: Minion)
    requires p.Valid()
    modifies p
    ensures p.Valid() && BuffsFrom(p.text, old(p.pos), m0) == Parsed(ok, m, p.pos)
  {
    hide PrefixMatch, BuffAt;
    m := m0;
    while true
      invariant p.Valid() && BuffsFrom(p.text, p.pos, m) == BuffsFrom(p.text, old(p.pos), m0)
      decreases |p.text| - p.pos
    {
      ghost var i, before := p.pos, m;
      ok, m := ParseOneBuff(p, m);
      if !ok {
        return;
      }
      ghost var k := p.pos;
      var more := p.Match(",");
      if !more {
        return;
      }
      MatchAdvances(p.text, k, ",");
      assert BuffsFrom(p.text, i, before) == BuffsFrom(p.text, p.pos, m);
    }
  }

  // ---------------------------------------------------------------------------
  // parse_minion

  /** The leading `attack/health` of `parse_minion`: the two numbers and the position after
      them. */
  function StatsAt(s: string, j: nat): (r: Option<(int, int, nat)>)
    requires j <= |s|
    ensures r.Some? ==> j < r.value.2 <= |s|
  {
    match ScanInt(s, j)
    case None => Option.None
    case Some((a, k)) =>
      if IsPrefixAt(s, k, "/") then
        match ScanInt(s, k + 1)
        case None => Option.None
        case Some((h, e)) => Some((a, h, e))
      else Option.None
  }

  /** The table's stats with the given ones put in place, where they are not -1. */
  function WithStats(m: Minion, a: int, h: int): (r: Minion)
    ensures r.kind == m.kind && r.golden == m.golden
    ensures r.attack == (if a == -1 then m.attack else a)
    ensures r.health == (if h == -1 then m.health else h)
  {
    m.(attack := if a != -1 then a else m.attack, health := if h != -1 then h else m.health)
  }

  /** The optional "gold" or "golden": the flag and the position after it. */
  ghost function GoldenAt(s: string, k: nat): (r: (bool, nat))
    requires k <= |s|
    ensures k <= r.1 <= |s|
    ensures r.0 <==> PrefixMatch(s, k, "gold").Some? || PrefixMatch(s, k, "golden").Some?
  {
    if PrefixMatch(s, k, "gold").Some? then (true, MatchPos(s, k, "gold"))
    else if PrefixMatch(s, k, "golden").Some? then (true, MatchPos(s, k, "golden"))
    else (false, k)
  }

  /** `parse_minion(in, m)` for a minion `m0` passed in: stats, golden flag, name, then buffs
      after a comma. `m0` comes back unchanged when the stats or the name fail. */
  ghost function MinionAt(c: Catalog, s: string, i: nat, m0: Minion): (r: Parsed<Minion>)
    requires i <= |s|
    ensures r.pos <= |s|
  {
    var j := SkipSpaces(s, i);
    var stats := if IsDigit(At(s, j)) then StatsAt(s, j) else Some((-1, -1, j));
    if stats.None? then Parsed(false, m0, j)
    else NamedMinionAt(c, s, stats.value.2, stats.value.0, stats.value.1, m0)
  }

  /** `parse_minion` after the stats `a/h` (-1 when absent): golden flag, then the name. */
  ghost function NamedMinionAt(c: Catalog, s: string, k: nat, a: int, h: int, m0: Minion): (r: Parsed<Minion>)
    requires k <= |s|
    ensures r.pos <= |s|
  {
    var (golden, k2) := GoldenAt(s, k);
    var k3 := SkipSpaces(s, k2);
    if k3 == |s| then Parsed(false, m0, k3)
    else TypedMinionAt(c, s, k3, golden, a, h, m0)
  }

  /** `parse_minion` at the name: the minion type, then the buffs after a comma. */
  ghost function TypedMinionAt(c: Catalog, s: string, k: nat, golden: bool, a: int, h: int, m0: Minion)
    : (r: Parsed<Minion>)
    requires k <= |s|
    ensures r.pos <= |s|
  {
    match FirstMatch(s, k, MinionNames(c), 0)
    case None => Parsed(false, m0, k)
    case Some(t) =>
      var m := WithStats(Make(c, c.types[t], golden), a, h);
      var e := MatchPos(s, k, MinionNames(c)[t]);
      if PrefixMatch(s, e, ",").Some? then BuffsFrom(s, MatchPos(s, e, ","), m)
      else Parsed(true, m, e)
  }

  /** The stats part of `parse_minion`, entered on a digit. */
  method ParseStats(p: StringParser) returns (ok: bool, attack: int, health: int)
    requires p.Valid()
    modifies p
    ensures p.Valid()
    ensures StatsAt(p.text, old(p.pos)) == if ok then Some((attack, health, p.pos)) else Option.None
    ensures !ok ==> p.pos == old(p.pos)
  {
    hide ScanInt;
    var at := p.pos;
    health := -1;
    ok, attack := p.MatchInt();
    if ok {
      ok := p.ExactMatch("/");
      if ok {
        ok, health := p.MatchInt();
      }
    }
    if !ok {
      p.pos := at;
    }
  }

  /** `parse_minion(in, m)`. */
  method ParseMinion(p: StringParser, c: Catalog, m0: Minion) returns (ok: bool, m: Minion)
    requires p.Valid() && CNames(MinionNames(c))
    modifies p
    ensures p.Valid() && MinionAt(c, p.text, old(p.pos), m0) == Parsed(ok, m, p.pos)
  {
    hide NamedMinionAt, StatsAt;
    m := m0;
    var attack, health := -1, -1;
    p.SkipWs();
    if IsDigit(p.Peek()) {
      ok, attack, health := ParseStats(p);
      if !ok {
        return;
      }
    }
    ok, m := ParseNamedMinion(p, c, attack, health, m0);
  }

  method ParseNamedMinion(p: StringParser, c: Catalog, attack: int, health: int, m0: Minion)
    returns (ok: bool, m: Minion)
    requires p.Valid() && CNames(MinionNames(c))
    modifies p
    ensures p.Valid() && NamedMinionAt(c, p.text, old(p.pos), attack, health, m0) == Parsed(ok, m, p.pos)
  {
    hide TypedMinionAt, PrefixMatch;
    ghost var k := p.pos;
    var golden := p.Match("gold");
    if !golden {
      golden := p.Match("golden");
    }
    assert GoldenAt(p.text, k) == (golden, p.pos);
    p.SkipWs();
    if p.AtEnd() {
      return false, m0;
    }
    ok, m := ParseTypedMinion(p, c, golden, attack, health, m0);
  }

  method ParseTypedMinion(p: StringParser, c: Catalog, golden: bool, attack: int, health: int, m0: Minion)
    returns (ok: bool, m: Minion)
    requires p.Valid() && CNames(MinionNames(c))
    modifies p
    ensures p.Valid() && TypedMinionAt(c, p.text, old(p.pos), golden, attack, health, m0) == Parsed(ok, m, p.pos)
  {
    hide BuffsFrom, PrefixMatch;
    var t := MatchMinionType(p, c);
    if t.None? {
      return false, m0;
    }
    m := WithStats(Make(c, t.value, golden), attack, health);
    var comma := p.Match(",");
    if comma {
      ok, m := ParseBuffs(p, m);
    } else {
      ok := true;
    }
  }

  // ---------------------------------------------------------------------------
  // Properties of the grammar

  /** Buffs never change which minion it is. */
  lemma {:induction false} BuffsKeepKind(s: string, i: nat, m: Minion)
    requires i <= |s|
    ensures BuffsFrom(s, i, m).value.kind == m.kind && BuffsFrom(s, i, m).value.golden == m.golden
    decreases |s| - i
  {
    hide PrefixMatch;
    match BuffAt(s, i, m)
    case None =>
    case Some((m', k)) =>
      if PrefixMatch(s, k, ",").Some? {
        MatchAdvances(s, k, ",");
        BuffsKeepKind(s, MatchPos(s, k, ","), m');
      }
  }

  /** A successful buff list ends where no comma follows. */
  lemma {:induction false} BuffsEndWithoutComma(s: string, i: nat, m: Minion)
    requires i <= |s| && BuffsFrom(s, i, m).ok
    ensures PrefixMatch(s, BuffsFrom(s, i, m).pos, ",").None?
    decreases |s| - i
  {
    hide PrefixMatch;
    var r := BuffAt(s, i, m);
    var k := r.value.1;
    if PrefixMatch(s, k, ",").Some? {
      MatchAdvances(s, k, ",");
      BuffsEndWithoutComma(s, MatchPos(s, k, ","), r.value.0);
    }
  }

  /** A buff list that is expected but missing fails, leaving the minion as it was. */
  lemma BuffsAtEnd(s: string, i: nat, m: Minion)
    requires i <= |s| && SkipSpaces(s, i) == |s|
    ensures BuffsFrom(s, i, m) == Parsed(false, m, |s|)
  {
    forall k | 0 <= k < |BuffKeywords|
      ensures PrefixMatch(s, |s|, BuffKeywords[k]).None?
    {
      KeywordsNonBlank(k);
      NoMatchAtEnd(s, |s|, BuffKeywords[k]);
    }
    NoneMatch(s, |s|, BuffKeywords, 0);
    assert KeywordBuffAt(s, |s|, m).None?;
  }

  /** A single digit after an optional sign, followed by no digit. */
  lemma ScanDigit(s: string, j: nat, k: nat)
    requires j <= k < |s| && IsDigit(s[k]) && !IsDigit(At(s, k + 1))
    requires k == j || (k == j + 1 && (s[j] == '+' || s[j] == '-'))
    ensures ScanInt(s, j) == Some((if k > j && s[j] == '-' then -(DigitValue(s[k]) as int) else DigitValue(s[k]), k + 1))
  {
    assert SkipSpaces(s, j) == j;
    assert SignEnd(s, j) == k;
    assert SkipDigits(s, k) == k + 1;
    assert s[k..k + 1] == [s[k]];
    assert DigitsValue([s[k]]) == DigitValue(s[k]) by {
      assert [s[k]][..0] == [];
    }
  }

  /** `+2/+3, taunt`: both stats, then a keyword, read in turn. */
  lemma BuffsExample(m: Minion)
    ensures BuffsFrom("+2/+3, taunt", 0, m) == Parsed(true, Buff(m, 2, 3).(taunt := true), 12)
  {
    var s := "+2/+3, taunt";
    var m' := Buff(m, 2, 3);
    ExampleFirstBuff(m);
    ExampleSecondBuff(m');
    ExampleComma();
    hide BuffAt, PrefixMatch, MatchPos, SkipSpaces, Buff;
    assert BuffsFrom(s, 6, m') == Parsed(true, m'.(taunt := true), 12);
  }

  lemma ExampleComma()
    ensures var s := "+2/+3, taunt";
      PrefixMatch(s, 5, ",") == Some(6) && MatchPos(s, 5, ",") == 6 && PrefixMatch(s, 12, ",").None?
  {
    var s := "+2/+3, taunt";
    assert SkipSpaces(s, 5) == 5 && s[5..6] == ",";
    LiteralMatch(s, 5, ",");
    NoMatchAtEnd(s, 12, ",");
  }

  lemma ExampleFirstBuff(m: Minion)
    ensures BuffAt("+2/+3, taunt", 0, m) == Some((Buff(m, 2, 3), 5))
  {
    var s := "+2/+3, taunt";
    assert SkipSpaces(s, 0) == 0;
    ScanDigit(s, 0, 1);
    ScanDigit(s, 3, 4);
    assert s[2..3] == "/";
    hide ScanInt;
    assert NumericBuffAt(s, 0, m) == Some((Buff(m, 2, 3), 5));
  }

  lemma ExampleSecondBuff(m: Minion)
    ensures BuffAt("+2/+3, taunt", 6, m) == Some((m.(taunt := true), 12))
  {
    var s := "+2/+3, taunt";
    assert SkipSpaces(s, 6) == 7 && SkipSpaces(s, 7) == 7 && s[7..12] == "taunt";
    LiteralMatch(s, 7, "taunt");
    hide PrefixMatch;
    assert FirstMatch(s, 7, BuffKeywords, 0) == Some(0);
    assert KeywordBuffAt(s, 7, m) == Some((m.(taunt := true), 12));
  }

  /** A successful parse names a minion type of the table, golden exactly when the text said
      so. */
  lemma MinionKind(c: Catalog, s: string, i: nat, m0: Minion)
    requires i <= |s| && MinionAt(c, s, i, m0).ok
    ensures MinionAt(c, s, i, m0).value.kind in c.types
  {
    hide PrefixMatch;
    var j := SkipSpaces(s, i);
    var stats := if IsDigit(At(s, j)) then StatsAt(s, j) else Some((-1, -1, j));
    var (a, h, k) := stats.value;
    var (golden, k2) := GoldenAt(s, k);
    var k3 := SkipSpaces(s, k2);
    var t := FirstMatch(s, k3, MinionNames(c), 0).value;
    var m := WithStats(Make(c, c.types[t], golden), a, h);
    var e := MatchPos(s, k3, MinionNames(c)[t]);
    if PrefixMatch(s, e, ",").Some? {
      BuffsKeepKind(s, MatchPos(s, e, ","), m);
    }
  }

  /** A line with nothing left to read has no minion. */
  lemma MinionMissing(c: Catalog, s: string, i: nat, m0: Minion)
    requires i <= |s| && SkipSpaces(s, i) == |s|
    ensures MinionAt(c, s, i, m0) == Parsed(false, m0, |s|)
  {
    NoMatchAtEnd(s, |s|, "gold");
    NoMatchAtEnd(s, |s|, "golden");
  }

  /** Stats written `3/-1` read as attack 3 and health -1, the value `WithStats` takes for "no
      health given": such a minion keeps the table's health. */
  lemma StatsMinusOne(s: string)
    requires |s| > 5 && s[..5] == "3/-1 "
    ensures SkipSpaces(s, 0) == 0 && IsDigit(At(s, 0)) && StatsAt(s, 0) == Some((3, -1, 4))
  {
    assert s[0] == s[..5][0] && s[1] == s[..5][1] && s[2] == s[..5][2];
    assert s[3] == s[..5][3] && s[4] == s[..5][4];
    ScanDigit(s, 0, 0);
    ScanDigit(s, 2, 3);
    assert s[1..2] == "/";
  }
}
