// scripts/generate_enum_data.py, `enum_name`: how a card name becomes the C++ identifier of
// its enumeration value. The card records, the sorts and the written tables are in
// card_entities.dfy, card_sort.dfy and card_tables.dfy.
module CardData {
  import opened Util

  // ---------------------------------------------------------------------------
  // Enumeration names

  /** A character that ends a word and is dropped. */
  predicate IsWordBreak(c: char) { c == '-' || c == ' ' }

  /** `enum_name` from a point where a word does (`start`) or does not begin: word breaks are
      dropped and start a word, the first letter or digit of a word is upper-cased, the others
      are copied, and everything else is dropped without ending the word. */
  function EnumFrom(n: string, start: bool): (r: string)
    ensures |r| <= |n|
    ensures forall k :: 0 <= k < |r| ==> IsAlnum(r[k])
    ensures start && r != [] ==> ToUpper(r[0]) == r[0]
    decreases |n|
  {
    if n == [] then []
    else if IsWordBreak(n[0]) then EnumFrom(n[1..], true)
    else if IsAlnum(n[0]) then [if start then ToUpper(n[0]) else n[0]] + EnumFrom(n[1..], false)
    else EnumFrom(n[1..], start)
  }

  /** The identifier of a card name. */
  function EnumName(n: string): (r: string)
    ensures |r| <= |n|
    ensures forall k :: 0 <= k < |r| ==> IsAlnum(r[k])
  {
    EnumFrom(n, true)
  }

  /** `enum_name`: the loop over the characters of the name. */
  method ComputeEnumName(n: string) returns (out: string)
    ensures out == EnumName(n)
  {
    out := "";
    var wordStart := true;
    var i := 0;
    while i < |n|
      invariant 0 <= i <= |n|
      invariant out + EnumFrom(n[i..], wordStart) == EnumName(n)
    {
      var c := n[i];
      assert n[i..][1..] == n[i + 1..];
      if IsWordBreak(c) {
        wordStart := true;
      } else if IsAlnum(c) {
        if wordStart {
          out := out + [ToUpper(c)];
        } else {
          out := out + [c];
        }
        wordStart := false;
      }
      i := i + 1;
    }
  }

  /** Each letter of `ToUpper` is already upper case. */
  lemma UpperFixed(c: char)
    ensures ToUpper(ToUpper(c)) == ToUpper(c)
  {
  }

  /** Inside a word, a run of letters and digits is copied unchanged. */
  lemma {:induction false} EnumFromAlnum(w: string, j: nat)
    requires j <= |w| && forall k :: j <= k < |w| ==> IsAlnum(w[k])
    ensures EnumFrom(w[j..], false) == w[j..]
    decreases |w| - j
  {
    if j < |w| {
      EnumFromAlnum(w, j + 1);
      assert w[j..] == [w[j]] + w[j + 1..];
      EnumHead(w[j], w[j + 1..], false);
    }
  }

  /** `enum_name` is idempotent: an identifier is its own enumeration name. */
  lemma EnumNameIdempotent(n: string)
    ensures EnumName(EnumName(n)) == EnumName(n)
  {
    var r := EnumName(n);
    if r != [] {
      EnumFromAlnum(r, 1);
      UpperFixed(r[0]);
      assert r == [r[0]] + r[1..];
    }
  }

  /** A word break ends a word: the parts on either side are named on their own. */
  lemma {:induction false} EnumNameBreak(a: string, c: char, b: string, start: bool)
    requires IsWordBreak(c)
    ensures EnumFrom(a + [c] + b, start) == EnumFrom(a, start) + EnumFrom(b, true)
    decreases |a|
  {
    if a == [] {
      assert ([] + [c] + b)[1..] == b;
    } else {
      assert (a + [c] + b)[0] == a[0];
      assert (a + [c] + b)[1..] == a[1..] + [c] + b;
      if IsWordBreak(a[0]) {
        EnumNameBreak(a[1..], c, b, true);
      } else if IsAlnum(a[0]) {
        EnumNameBreak(a[1..], c, b, false);
      } else {
        EnumNameBreak(a[1..], c, b, start);
      }
    }
  }

  /** The kept characters are exactly the letters and digits of the name, in order; only their
      case may change. */
  lemma {:induction false} EnumFromKeepsAlnums(n: string, start: bool)
    ensures |EnumFrom(n, start)| == |Alnums(n)|
    ensures forall k :: 0 <= k < |Alnums(n)| ==>
              EnumFrom(n, start)[k] == Alnums(n)[k] || EnumFrom(n, start)[k] == ToUpper(Alnums(n)[k])
    decreases |n|
  {
    if n != [] {
      if IsWordBreak(n[0]) {
        EnumFromKeepsAlnums(n[1..], true);
      } else if IsAlnum(n[0]) {
        EnumFromKeepsAlnums(n[1..], false);
      } else {
        EnumFromKeepsAlnums(n[1..], start);
      }
    }
  }

  /** The letters and digits of a name, in order. */
  function Alnums(n: string): (r: string)
    ensures |r| <= |n|
    ensures forall k :: 0 <= k < |r| ==> IsAlnum(r[k])
    decreases |n|
  {
    if n == [] then []
    else if IsAlnum(n[0]) then [n[0]] + Alnums(n[1..])
    else Alnums(n[1..])
  }

  /** A word of letters and digits: its first character upper-cased, the rest copied. */
  lemma EnumWord(w: string)
    requires w != [] && forall k :: 0 <= k < |w| ==> IsAlnum(w[k])
    ensures EnumFrom(w, true) == [ToUpper(w[0])] + w[1..]
  {
    EnumFromAlnum(w, 1);
    assert w == [w[0]] + w[1..];
    EnumHead(w[0], w[1..], true);
  }

  /** A word already in enumeration form is its own enumeration name. */
  lemma EnumWordFixed(w: string)
    requires w != [] && forall k :: 0 <= k < |w| ==> IsAlnum(w[k])
    requires ToUpper(w[0]) == w[0]
    ensures EnumFrom(w, true) == w
  {
    EnumWord(w);
    assert w == [w[0]] + w[1..];
  }

  /** The first character of a name and what `enum_name` makes of it. */
  lemma EnumHead(c: char, x: string, start: bool)
    ensures EnumFrom([c] + x, start)
         == if IsWordBreak(c) then EnumFrom(x, true)
            else if IsAlnum(c) then [if start then ToUpper(c) else c] + EnumFrom(x, false)
            else EnumFrom(x, start)
  {
    assert ([c] + x)[1..] == x;
  }

  /** A name from the card database with hyphens. */
  lemma AnnoyOTron()
    ensures EnumName("Annoy-o-Tron") == "AnnoyOTron"
  {
    hide EnumFrom;
    var rest: string := "o-Tron";
    assert "Annoy-o-Tron" == "Annoy" + ['-'] + rest;
    assert rest == "o" + ['-'] + "Tron";
    EnumWordFixed("Annoy");
    EnumWord("o");
    assert EnumFrom("o", true) == "O";
    EnumWordFixed("Tron");
    EnumNameBreak("Annoy", '-', rest, true);
    EnumNameBreak("o", '-', "Tron", true);
    assert "Annoy" + ("O" + "Tron") == "AnnoyOTron";
  }

  /** A name from the card database with spaces and an apostrophe. */
  lemma SpawnOfNZoth()
    ensures EnumName("Spawn of N'Zoth") == "SpawnOfNZoth"
  {
    hide EnumFrom;
    var rest: string := "of N'Zoth";
    assert "Spawn of N'Zoth" == "Spawn" + [' '] + rest;
    assert rest == "of" + [' '] + "N'Zoth";
    EnumWordFixed("Spawn");
    EnumWord("of");
    assert EnumFrom("of", true) == "Of";
    assert "N'Zoth" == ['N'] + (['\''] + "Zoth");
    EnumHead('N', ['\''] + "Zoth", true);
    EnumHead('\'', "Zoth", false);
    EnumFromAlnum("Zoth", 0);
    assert "Zoth"[0..] == "Zoth";
    assert EnumFrom("N'Zoth", true) == "NZoth";
    EnumNameBreak("Spawn", ' ', rest, true);
    EnumNameBreak("of", ' ', "N'Zoth", true);
    assert "Spawn" + ("Of" + "NZoth") == "SpawnOfNZoth";
  }
}
