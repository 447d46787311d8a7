// scripts/generate_enum_data.py, the reading half: the cards of the database, the properties
// the generator reads from them, and the loop that keeps the Battlegrounds minions and heroes.
module CardEntities {
  import opened Util
  import Parser
  import opened CardData

  // ---------------------------------------------------------------------------
  // Cards of the database

  /** One `Entity` element of the card database: its CardID, its English name and text (absent
      when the element has no such tag), its integer tags by name, and the `cardID` named by its
      HERO_POWER tag, if it has one. */
  datatype CardDef = CardDef(
    id: string,
    name: Option<string>,
    text: Option<string>,
    tags: map<string, int>,
    heroPower: Option<string>)

  /** `get_tag_int`: the tag's value, or the default when the card has no such tag. */
  function TagInt(d: CardDef, tag: string, default: int): int {
    if tag in d.tags then d.tags[tag] else default
  }

  /** Python's `sub in s` on strings. */
  predicate Contains(s: string, sub: string)
    decreases |s|
  {
    sub <= s || (s != [] && Contains(s[1..], sub))
  }

  /** `sub` occurs in `s` at position `i`. */
  predicate OccursAt(s: string, sub: string, i: int) {
    0 <= i <= |s| - |sub| && s[i..i + |sub|] == sub
  }

  /** `Contains` holds exactly when `sub` occurs at some position of `s`. */
  lemma {:induction false} ContainsAt(s: string, sub: string)
    ensures Contains(s, sub) <==> exists i :: OccursAt(s, sub, i)
    decreases |s|
  {
    if s == [] {
      if sub == [] {
        assert OccursAt(s, sub, 0);
      }
    } else {
      ContainsAt(s[1..], sub);
      if sub <= s {
        assert OccursAt(s, sub, 0);
      }
      if Contains(s[1..], sub) {
        var i :| OccursAt(s[1..], sub, i);
        assert s[i + 1..i + 1 + |sub|] == s[1..][i..i + |sub|];
        assert OccursAt(s, sub, i + 1);
      }
      if exists i :: OccursAt(s, sub, i) {
        var i :| OccursAt(s, sub, i);
        if i > 0 {
          assert s[1..][i - 1..i - 1 + |sub|] == s[i..i + |sub|];
          assert OccursAt(s[1..], sub, i - 1);
        }
      }
    }
  }

  // ---------------------------------------------------------------------------
  // Entities: database cards and the generator's own entries

  /** A card that has a name (`Entity`), or one of the generator's own entries (`CustomEntity`,
      `NoneEntity`), whose fields are its class attributes. */
  datatype Entity =
    | Card(def: CardDef, name: string)
    | Custom(name: string, tier: int, attack: int, health: int, tribe: string, custom: bool)

  /** The `id` property: the CardID, or `None` for the generator's own entries. */
  function Id(e: Entity): Option<string> {
    if e.Card? then Some(e.def.id) else None
  }

  /** The `tier` property: TECH_LEVEL, 1 when the card has none. */
  function Tier(e: Entity): int {
    if e.Card? then TagInt(e.def, "TECH_LEVEL", 1) else e.tier
  }

  /** `get_int`: a tag of a card, 0 when absent; an own entry knows only its attack and health. */
  function Int(e: Entity, tag: string): int {
    match e
    case Card(d, _) => TagInt(d, tag, 0)
    case Custom(_, _, attack, health, _, _) =>
      if tag == "ATK" then attack else if tag == "HEALTH" then health else 0
  }

  /** `get_bool`: a tag whose value is exactly 1; false for every own entry. */
  predicate Bool(e: Entity, tag: string) {
    e.Card? && Int(e, tag) == 1
  }

  /** The `token` property: a card outside the Battlegrounds pool; own entries are no tokens. */
  predicate IsToken(e: Entity) {
    e.Card? && !Bool(e, "IS_BACON_POOL_MINION")
  }

  /** The `custom` property. */
  predicate IsCustom(e: Entity) {
    e.Custom? && e.custom
  }

  /** The `cleave` property: the card text mentions the minions next to the defender. */
  predicate Cleaves(e: Entity) {
    e.Card? && e.def.text.Some? && Contains(e.def.text.value, "minions next to whomever")
  }

  /** The `tribe` property: CARDRACE through the table of known races. */
  function TribeOf(e: Entity): string {
    if e.Card? then TribeName(TagInt(e.def, "CARDRACE", 0)) else e.tribe
  }

  /** The `enum` property. */
  function Enum(e: Entity): string {
    EnumName(e.name)
  }

  /** The `tribes` table of the generator: CARDRACE codes and their names. */
  const Tribes: map<int, string> :=
    map[0 := "None", 14 := "Murloc", 15 := "Demon", 17 := "Mech", 20 := "Beast", 24 := "Dragon", 26 := "All"]

  /** A known race by its name, any other code by its decimal digits. */
  function TribeName(code: int): string {
    if code in Tribes then Tribes[code] else IntToString(code)
  }

  /** A race name begins with a capital letter exactly when the race is known: the names of the
      table do, and a number begins with a digit or a minus sign. */
  lemma TribeNameHead(code: int)
    ensures |TribeName(code)| > 0
    ensures code in Tribes <==> 'A' <= TribeName(code)[0] <= 'Z'
  {
    if code !in Tribes {
      var d := NatToString(if code < 0 then -code else code);
      assert IsDigit(d[0]);
    }
  }

  /** Different race codes never share a name: a known name is not a number, and two numbers read
      back as themselves. */
  lemma TribeNameInjective(a: int, b: int)
    requires TribeName(a) == TribeName(b)
    ensures a == b
  {
    TribeNameHead(a);
    TribeNameHead(b);
    if a !in Tribes {
      Parser.ScanIntToString(a, []);
      Parser.ScanIntToString(b, []);
      assert IntToString(a) + [] == IntToString(b) + [];
    }
  }

  /** A card with no tags at all: a tier-1 token of no tribe, with no stats and no keywords. */
  lemma UntaggedCard(d: CardDef, n: string)
    requires d.tags == map[]
    ensures var e := Card(d, n);
      && Tier(e) == 1 && IsToken(e) && TribeOf(e) == "None"
      && Int(e, "ATK") == 0 && Int(e, "HEALTH") == 0 && !Bool(e, "TAUNT")
  {
  }

  /** A card's boolean tag is set only by the value 1; any other value reads as false. */
  lemma BoolIsValueOne(e: Entity, tag: string)
    requires e.Card?
    ensures Bool(e, tag) <==> tag in e.def.tags && e.def.tags[tag] == 1
  {
  }

  // ---------------------------------------------------------------------------
  // extract_data

  /** The minions kept by name even when they have no TECH_LEVEL. */
  const ExtraNames: seq<string> := ["Safeguard", "Plant"]

  /** A minion card of the database the generator keeps: it has a name, it is a minion
      (CARDTYPE 4), it has a nonzero tier or an extra name, and it is not the second Ghastcoiler. */
  predicate KeptMinion(d: CardDef) {
    && d.name.Some?
    && TagInt(d, "CARDTYPE", 0) == 4
    && (TagInt(d, "TECH_LEVEL", 0) != 0 || d.name.value in ExtraNames)
    && d.id != "TRLA_149"
  }

  /** The golden version of a minion carries "BaconUps" in its id. */
  predicate IsGolden(d: CardDef) {
    Contains(d.id, "BaconUps")
  }

  /** A hero card of the database the generator keeps: it has a name, it is no minion, its id
      names a Battlegrounds hero other than the placeholder, and it is a hero (CARDTYPE 3). */
  predicate KeptHero(d: CardDef) {
    && d.name.Some?
    && TagInt(d, "CARDTYPE", 0) != 4
    && Contains(d.id, "TB_BaconShop_HERO")
    && d.id != "TB_BaconShop_HERO_PH"
    && TagInt(d, "CARDTYPE", 0) == 3
  }

  /** A record of the `minions` dictionary: slot 0 holds the regular card, slot 1 the golden one. */
  datatype Pair = Pair(regular: Option<Entity>, golden: Option<Entity>)

  /** One slot of a record. */
  function SlotOf(p: Pair, golden: bool): Option<Entity> {
    if golden then p.golden else p.regular
  }

  /** A dictionary in insertion order: its keys in the order they were first added, and its
      entries. */
  datatype Records = Records(order: seq<string>, slots: map<string, Pair>)

  /** The keys listed in order are exactly the keys of the dictionary, each once. */
  ghost predicate ValidRecords(r: Records) {
    && (forall n :: n in r.slots <==> n in r.order)
    && (forall i, j :: 0 <= i < j < |r.order| ==> r.order[i] != r.order[j])
  }

  /** The slot of the record named `n`, or nothing when there is no such record. */
  function Lookup(r: Records, n: string, golden: bool): Option<Entity> {
    if n in r.slots then SlotOf(r.slots[n], golden) else None
  }

  /** The hero power a kept hero gets: none without a HERO_POWER tag, otherwise the first card of
      the database with that id, which may be missing. */
  datatype Power = NoPower | PowerCard(def: CardDef) | PowerNotFound(id: string)

  datatype Hero = Hero(entity: Entity, power: Power)

  /** The lines `extract_data` prints. */
  datatype Message =
    | DuplicateMinion(name: string, oldId: Option<string>, newId: string)
    | NoHeroPower(name: string)

  /** What `extract_data` has built: the minion records, the heroes in database order, and what
      it has printed. */
  datatype Extraction = Extraction(minions: Records, heroes: seq<Hero>, messages: seq<Message>)

  /** `defs.find("Entity[@CardID='id']")`: the first card of the database with that id. */
  function FindCard(defs: seq<CardDef>, id: string): (r: Option<CardDef>)
    ensures r.None? <==> forall k :: 0 <= k < |defs| ==> defs[k].id != id
    ensures r.Some? ==> exists k :: 0 <= k < |defs| && defs[k] == r.value && r.value.id == id
                                   && forall j :: 0 <= j < k ==> defs[j].id != id
  {
    if defs == [] then None
    else if defs[0].id == id then Some(defs[0])
    else
      var r := FindCard(defs[1..], id);
      assert forall k :: 1 <= k < |defs| ==> defs[k] == defs[1..][k - 1];
      r
  }

  /** The hero power of a kept hero card. */
  function PowerOf(defs: seq<CardDef>, d: CardDef): Power {
    if d.heroPower.None? then NoPower
    else
      match FindCard(defs, d.heroPower.value)
      case Some(p) => PowerCard(p)
      case None => PowerNotFound(d.heroPower.value)
  }

  /** What one card does to the extraction; `defs` is the whole database, for the hero power. */
  function Step(defs: seq<CardDef>, x: Extraction, d: CardDef): Extraction {
    if d.name.None? then x
    else if TagInt(d, "CARDTYPE", 0) == 4 then
      if !KeptMinion(d) then x
      else
        var n := d.name.value;
        var golden := IsGolden(d);
        var r := x.minions;
        var p := if n in r.slots then r.slots[n] else Pair(None, None);
        var prev := SlotOf(p, golden);
        var p' := if golden then p.(golden := Some(Card(d, n))) else p.(regular := Some(Card(d, n)));
        var order := if n in r.slots then r.order else r.order + [n];
        var warn := if prev.Some? then [DuplicateMinion(n, Id(prev.value), d.id)] else [];
        Extraction(Records(order, r.slots[n := p']), x.heroes, x.messages + warn)
    else if KeptHero(d) then
      var warn := if d.heroPower.None? then [NoHeroPower(d.name.value)] else [];
      x.(heroes := x.heroes + [Hero(Card(d, d.name.value), PowerOf(defs, d))], messages := x.messages + warn)
    else x
  }

  /** The extraction after the first `n` cards of the database. */
  function Extracted(defs: seq<CardDef>, n: nat): (x: Extraction)
    requires n <= |defs|
    ensures forall name :: name in x.minions.order ==> name in x.minions.slots
  {
    if n == 0 then Extraction(Records([], map[]), [], [])
    else Step(defs, Extracted(defs, n - 1), defs[n - 1])
  }

  /** `extract_data`: the loop over the cards of the database. */
  method ExtractData(defs: seq<CardDef>) returns (minions: Records, heroes: seq<Hero>, messages: seq<Message>)
    ensures Extraction(minions, heroes, messages) == Extracted(defs, |defs|)
  {
    minions := Records([], map[]);
    heroes := [];
    messages := [];
    for i := 0 to |defs|
      invariant Extraction(minions, heroes, messages) == Extracted(defs, i)
    {
      var d := defs[i];
      if d.name.None? {
        continue;
      }
      var n := d.name.value;
      if TagInt(d, "CARDTYPE", 0) == 4 {
        if !(TagInt(d, "TECH_LEVEL", 0) != 0 || n in ExtraNames) {
          continue;
        }
        if d.id == "TRLA_149" {
          continue;
        }
        var golden := IsGolden(d);
        if n !in minions.slots {
          minions := Records(minions.order + [n], minions.slots[n := Pair(None, None)]);
        }
        var p := minions.slots[n];
        var prev := SlotOf(p, golden);
        if prev.Some? {
          messages := messages + [DuplicateMinion(n, Id(prev.value), d.id)];
        }
        var p' := if golden then p.(golden := Some(Card(d, n))) else p.(regular := Some(Card(d, n)));
        minions := minions.(slots := minions.slots[n := p']);
      } else if Contains(d.id, "TB_BaconShop_HERO") && d.id != "TB_BaconShop_HERO_PH" && TagInt(d, "CARDTYPE", 0) == 3 {
        var power := PowerOf(defs, d);
        heroes := heroes + [Hero(Card(d, n), power)];
        if d.heroPower.None? {
          messages := messages + [NoHeroPower(n)];
        }
      }
    }
  }

  /** Card `d` writes slot `golden` of the record named `n`. */
  predicate Fills(d: CardDef, n: string, golden: bool) {
    KeptMinion(d) && d.name.value == n && IsGolden(d) == golden
  }

  /** One card fills at most its own slot: every other slot keeps its value. */
  lemma StepSlots(defs: seq<CardDef>, x: Extraction, d: CardDef, n: string, golden: bool)
    ensures Lookup(Step(defs, x, d).minions, n, golden)
         == if Fills(d, n, golden) then Some(Card(d, n)) else Lookup(x.minions, n, golden)
  {
  }

  /** Golden pairing with the last write winning: a slot is empty exactly when no kept card
      fills it, and otherwise holds the last card of the database that does. */
  lemma {:induction false} SlotIsLastWrite(defs: seq<CardDef>, n: nat, name: string, golden: bool)
    requires n <= |defs|
    ensures Lookup(Extracted(defs, n).minions, name, golden).None?
            <==> forall k :: 0 <= k < n ==> !Fills(defs[k], name, golden)
    ensures forall k :: 0 <= k < n && Fills(defs[k], name, golden)
                        && (forall j :: k < j < n ==> !Fills(defs[j], name, golden))
                   ==> Lookup(Extracted(defs, n).minions, name, golden) == Some(Card(defs[k], name))
  {
    if n > 0 {
      SlotIsLastWrite(defs, n - 1, name, golden);
      StepSlots(defs, Extracted(defs, n - 1), defs[n - 1], name, golden);
    }
  }

  /** A record exists exactly for the names of kept minion cards, and the dictionary's order
      lists each key once. */
  lemma {:induction false} RecordsAreKeptNames(defs: seq<CardDef>, n: nat, name: string)
    requires n <= |defs|
    ensures ValidRecords(Extracted(defs, n).minions)
    ensures name in Extracted(defs, n).minions.slots
            <==> exists k :: 0 <= k < n && KeptMinion(defs[k]) && defs[k].name == Some(name)
  {
    if n > 0 {
      RecordsAreKeptNames(defs, n - 1, name);
      var r := Extracted(defs, n - 1).minions;
      var d := defs[n - 1];
      if d.name.Some? && KeptMinion(d) && d.name.value !in r.slots {
        var o := r.order + [d.name.value];
        assert forall i :: 0 <= i < |r.order| ==> o[i] == r.order[i];
      }
    }
  }

  /** A duplicate is reported exactly when a card fills a slot that is already filled. */
  lemma StepWarns(defs: seq<CardDef>, x: Extraction, d: CardDef)
    requires KeptMinion(d)
    ensures var y := Step(defs, x, d);
      var prev := Lookup(x.minions, d.name.value, IsGolden(d));
      && (prev.None? ==> y.messages == x.messages)
      && (prev.Some? ==> y.messages == x.messages + [DuplicateMinion(d.name.value, Id(prev.value), d.id)])
  {
  }

  /** The heroes are the kept hero cards, in database order, each with its hero power. */
  lemma {:induction false} HeroesAreKeptCards(defs: seq<CardDef>, n: nat)
    requires n <= |defs|
    ensures var hs := Extracted(defs, n).heroes;
      var kept := Filter(defs[..n], KeptHero);
      && |hs| == |kept|
      && (forall i :: 0 <= i < |kept| ==> KeptHero(kept[i]))
      && forall i :: 0 <= i < |hs| ==>
           hs[i] == Hero(Card(kept[i], kept[i].name.value), PowerOf(defs, kept[i]))
  {
    FilterElements(defs[..n], KeptHero);
    if n > 0 {
      HeroesAreKeptCards(defs, n - 1);
      FilterSnoc(defs, n - 1, KeptHero);
    }
  }
}
