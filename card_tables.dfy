// scripts/generate_enum_data.py, the writing half: sorting the records, adding the generator's
// own entries, and the rows of enums.hpp and enum_data.cpp in the order they are written.
module CardTables {
  import opened Util
  import opened CardData
  import opened CardEntities
  import opened CardSort

  // ---------------------------------------------------------------------------
  // Sorting and the generator's own entries

  /** A record of the final minion list: the entity of slot 0 and the golden card, if any. */
  datatype Entry = Entry(main: Entity, golden: Option<Entity>)

  /** The key of `sort_minions`. */
  function MinionKey(m: Entry): SortKey {
    SortKey(IsToken(m.main), Tier(m.main), m.main.name)
  }

  /** The key of `sort_heroes`. */
  function HeroKey(h: Hero): SortKey {
    SortKey(false, 0, h.entity.name)
  }

  /** `minions.values()`, each record read through its slot 0; `None` when a record has no regular
      card, where the key function of `sort_minions` fails on `None`. */
  function Entries(r: Records): (es: Option<seq<Entry>>)
    requires forall n :: n in r.order ==> n in r.slots
    ensures es.None? <==> exists i :: 0 <= i < |r.order| && r.slots[r.order[i]].regular.None?
    ensures es.Some? ==> |es.value| == |r.order|
                         && forall i :: 0 <= i < |r.order| ==>
                              es.value[i] == Entry(r.slots[r.order[i]].regular.value, r.slots[r.order[i]].golden)
    decreases |r.order|
  {
    if r.order == [] then Some([])
    else
      var p := r.slots[r.order[0]];
      var rest := Entries(r.(order := r.order[1..]));
      assert forall i :: 1 <= i < |r.order| ==> r.order[i] == r.order[1..][i - 1];
      if p.regular.None? || rest.None? then None
      else Some([Entry(p.regular.value, p.golden)] + rest.value)
  }

  /** `sort_minions`. */
  function SortMinions(r: Records): Option<seq<Entry>>
    requires forall n :: n in r.order ==> n in r.slots
  {
    match Entries(r)
    case None => None
    case Some(es) => Some(SortBy(es, MinionKey))
  }

  /** `sort_heroes`. */
  function SortHeroes(hs: seq<Hero>): seq<Hero> {
    SortBy(hs, HeroKey)
  }

  /** `NoneEntity`: the "(none)" sentinel, tier 0 and not custom. */
  const NoneEntity: Entity := Custom("(none)", 0, 0, 0, "None", false)

  /** `CustomEntity(name)` with its class defaults. */
  function CustomEntity(name: string): Entity {
    Custom(name, 1, 0, 0, "None", true)
  }

  /** The custom minion added by `add_custom_minions`: a `CustomEntity` made tier 6, 5/5 and
      Beast. */
  const MamaBear: Entity := Custom("Pre-nerf Mama Bear", 6, 5, 5, "Beast", true)

  /** The hero added by `add_custom_heroes`; its hero power is a `NoneEntity` as well. */
  const NoneHero: Hero := Hero(NoneEntity, NoPower)

  /** `add_custom_minions`: the sentinel in front, the custom Mama Bear at the end. */
  function WithCustomMinions(ms: seq<Entry>): (r: seq<Entry>)
    ensures |r| == |ms| + 2
    ensures r[0] == Entry(NoneEntity, None) && r[|r| - 1] == Entry(MamaBear, None)
    ensures r[1..|r| - 1] == ms
  {
    [Entry(NoneEntity, None)] + ms + [Entry(MamaBear, None)]
  }

  /** `add_custom_heroes`: the sentinel hero in front. */
  function WithCustomHeroes(hs: seq<Hero>): (r: seq<Hero>)
    ensures |r| == |hs| + 1 && r[0] == NoneHero && r[1..] == hs
  {
    [NoneHero] + hs
  }

  /** The sentinel is enumerated as `None`, the value 0 of `MinionType` and `HeroType`. */
  lemma NoneEnumName()
    ensures Enum(NoneEntity) == "None"
  {
    hide EnumFrom;
    assert "(none)" == ['('] + ("none" + [')']);
    EnumHead('(', "none" + [')'], true);
    assert "none" + [')'] == ['n'] + ("one" + [')']);
    EnumHead('n', "one" + [')'], true);
    assert "one" + [')'] == "one" + [')'] + [];
    EnumNameBreakFree("one", ')', false);
    EnumFromAlnum("one", 0);
    assert "one"[0..] == "one";
  }

  /** A trailing character that is neither a word break nor a letter or digit is dropped. */
  lemma {:induction false} EnumNameBreakFree(a: string, c: char, start: bool)
    requires !IsWordBreak(c) && !IsAlnum(c)
    ensures EnumFrom(a + [c], start) == EnumFrom(a, start)
    decreases |a|
  {
    if a == [] {
      assert ([] + [c])[1..] == [];
    } else {
      assert (a + [c])[0] == a[0];
      assert (a + [c])[1..] == a[1..] + [c];
      if IsWordBreak(a[0]) {
        EnumNameBreakFree(a[1..], c, true);
      } else if IsAlnum(a[0]) {
        EnumNameBreakFree(a[1..], c, false);
      } else {
        EnumNameBreakFree(a[1..], c, start);
      }
    }
  }

  // ---------------------------------------------------------------------------
  // Rendering of values

  /** `cstr`: a quoted C string, or `nullptr` for `None`. */
  function CStr(x: Option<string>): string {
    if x.None? then "nullptr" else "\"" + x.value + "\""
  }

  /** `cbool`. */
  function CBool(b: bool): string {
    if b then "true" else "false"
  }

  /** Distinct values are written differently: `nullptr` has no quote, and a quoted string gives
      back what it quotes. */
  lemma CStrInjective(x: Option<string>, y: Option<string>)
    requires CStr(x) == CStr(y)
    ensures x == y
  {
    CStrHead(x);
    CStrHead(y);
    if x.Some? && y.Some? {
      assert x.value == CStr(x)[1..|CStr(x)| - 1];
      assert y.value == CStr(y)[1..|CStr(y)| - 1];
    }
  }

  /** `nullptr` begins with a letter, a quoted string with a quote. */
  lemma CStrHead(x: Option<string>)
    ensures |CStr(x)| >= 2 && CStr(x)[0] == if x.None? then 'n' else '"'
  {
  }

  lemma CBoolInjective(a: bool, b: bool)
    requires CBool(a) == CBool(b)
    ensures a == b
  {
  }

  // ---------------------------------------------------------------------------
  // enums.hpp

  /** The race codes in ascending order, `sorted(tribes)`. */
  const TribeCodes: seq<int> := [0, 14, 15, 17, 20, 24, 26]

  /** `sorted(tribes)` lists every code of the table once, in ascending order. */
  lemma TribeCodesSorted()
    ensures |TribeCodes| == |Tribes|
    ensures forall i, j :: 0 <= i < j < |TribeCodes| ==> TribeCodes[i] < TribeCodes[j]
    ensures forall c :: c in Tribes <==> c in TribeCodes
  {
    assert Tribes.Keys == {0, 14, 15, 17, 20, 24, 26};
  }

  /** The values of `enum class Tribe`, and `Tribe_count`. */
  function TribeEnum(): (r: seq<string>)
    ensures |r| == |TribeCodes|
  {
    seq(|TribeCodes|, i requires 0 <= i < |TribeCodes| => Tribes[TribeCodes[i]])
  }

  /** The rows of `tribe_names[]`. */
  function TribeNameRows(): (r: seq<string>)
    ensures |r| == |TribeCodes|
  {
    seq(|TribeCodes|, i requires 0 <= i < |TribeCodes| => CStr(Some(Tribes[TribeCodes[i]])))
  }

  /** `tribe_names[t]` is the name of the enumerator `t`, and both have `Tribe_count` entries. */
  lemma TribeTablesAligned()
    ensures |TribeNameRows()| == |TribeEnum()| == |Tribes|
    ensures forall i :: 0 <= i < |TribeEnum()| ==> TribeNameRows()[i] == CStr(Some(TribeEnum()[i]))
  {
    TribeCodesSorted();
  }

  /** A line of `enum class MinionType`: a comment starting a group, or a value. */
  datatype EnumLine = TokensMarker | CustomMarker | TierMarker(tier: int) | EnumValue(name: string)

  /** The comment written before an entry that starts a group. */
  function Marker(e: Entity): EnumLine {
    if IsToken(e) then TokensMarker else if IsCustom(e) then CustomMarker else TierMarker(Tier(e))
  }

  /** The lines for one entry, after an entry of tier `prev`. */
  function Block(prev: int, e: Entity): seq<EnumLine> {
    (if Tier(e) != prev then [Marker(e)] else []) + [EnumValue(Enum(e))]
  }

  /** The tier of the entry before entry `i`; the running tier starts at 0. */
  function PrevTier(ms: seq<Entry>, i: nat): int
    requires i <= |ms|
  {
    if i == 0 then 0 else Tier(ms[i - 1].main)
  }

  /** The lines of `enum class MinionType` for the list `ms`. */
  function EnumLines(ms: seq<Entry>): seq<EnumLine>
    decreases |ms|
  {
    if ms == [] then []
    else EnumLines(ms[..|ms| - 1]) + Block(PrevTier(ms, |ms| - 1), ms[|ms| - 1].main)
  }

  /** The lines of the first `i + 1` entries: those of the first `i`, then entry `i`'s block. */
  lemma EnumLinesSnoc(ms: seq<Entry>, i: nat)
    requires i < |ms|
    ensures EnumLines(ms[..i + 1]) == EnumLines(ms[..i]) + Block(PrevTier(ms, i), ms[i].main)
  {
    assert ms[..i + 1][..i] == ms[..i];
  }

  /** The loop of `write_enums_hpp` over the minions, with its running `tier`. */
  method WriteMinionEnum(ms: seq<Entry>) returns (lines: seq<EnumLine>)
    ensures lines == EnumLines(ms)
  {
    lines := [];
    var tier := 0;
    for i := 0 to |ms|
      invariant tier == PrevTier(ms, i)
      invariant lines == EnumLines(ms[..i])
    {
      var e := ms[i].main;
      EnumLinesSnoc(ms, i);
      if Tier(e) != tier {
        if IsToken(e) {
          lines := lines + [TokensMarker];
        } else if IsCustom(e) {
          lines := lines + [CustomMarker];
        } else {
          lines := lines + [TierMarker(Tier(e))];
        }
        tier := Tier(e);
      }
      lines := lines + [EnumValue(Enum(e))];
    }
    assert ms[..|ms|] == ms;
  }

  /** The names of the values among `lines`, in order. */
  function Values(lines: seq<EnumLine>): seq<string>
    decreases |lines|
  {
    if lines == [] then []
    else Values(lines[..|lines| - 1]) + (if lines[|lines| - 1].EnumValue? then [lines[|lines| - 1].name] else [])
  }

  lemma {:induction false} ValuesAppend(a: seq<EnumLine>, b: seq<EnumLine>)
    ensures Values(a + b) == Values(a) + Values(b)
    decreases |b|
  {
    if b == [] {
      assert a + b == a;
    } else {
      ValuesAppend(a, b[..|b| - 1]);
      assert (a + b)[..|a + b| - 1] == a + b[..|b| - 1];
    }
  }

  /** The enumeration lists one value per entry, in list order: value `i` of `MinionType` is the
      entry `i` of the list, whose information row is `minion_info[i]`. */
  lemma {:induction false} EnumValuesAligned(ms: seq<Entry>)
    ensures Values(EnumLines(ms)) == seq(|ms|, i requires 0 <= i < |ms| => Enum(ms[i].main))
    decreases |ms|
  {
    if ms != [] {
      var n := |ms| - 1;
      var b := Block(PrevTier(ms, n), ms[n].main);
      EnumValuesAligned(ms[..n]);
      ValuesAppend(EnumLines(ms[..n]), b);
      ValuesBlock(PrevTier(ms, n), ms[n].main);
      hide Values, EnumLines, Block, Enum;
      assert Values(EnumLines(ms)) == Values(EnumLines(ms[..n])) + [Enum(ms[n].main)];
    }
  }

  /** One entry's lines hold its value and nothing else. */
  lemma ValuesBlock(prev: int, e: Entity)
    ensures Values(Block(prev, e)) == [Enum(e)]
  {
    var m: seq<EnumLine> := if Tier(e) != prev then [Marker(e)] else [];
    ValuesAppend(m, [EnumValue(Enum(e))]);
    ValuesOne(EnumValue(Enum(e)));
    if m != [] {
      ValuesOne(Marker(e));
    }
  }

  lemma ValuesOne(x: EnumLine)
    ensures Values([x]) == if x.EnumValue? then [x.name] else []
  {
    assert [x][..0] == [];
  }

  /** Whether entry `i` is preceded by a group comment: its tier differs from the previous
      entry's, or from 0 for the first entry. */
  predicate StartsGroup(ms: seq<Entry>, i: nat)
    requires i < |ms|
  {
    Tier(ms[i].main) != PrevTier(ms, i)
  }

  /** The enumeration is the entries' lines in order: the lines of the entries before `i`, then
      entry `i`'s group comment exactly when it starts a group, naming the entry's group, then its
      value. */
  lemma {:induction false} EnumLinesAreBlocks(ms: seq<Entry>, i: nat)
    requires i < |ms|
    ensures EnumLines(ms[..i])
              + (if StartsGroup(ms, i) then [Marker(ms[i].main)] else [])
              + [EnumValue(Enum(ms[i].main))]
            <= EnumLines(ms)
    decreases |ms| - i
  {
    EnumLinesSnoc(ms, i);
    EnumLinesPrefix(ms, i + 1);
  }

  /** The lines of a prefix of the list begin the lines of the list. */
  lemma {:induction false} EnumLinesPrefix(ms: seq<Entry>, i: nat)
    requires i <= |ms|
    ensures EnumLines(ms[..i]) <= EnumLines(ms)
    decreases |ms| - i
  {
    if i < |ms| {
      EnumLinesPrefix(ms, i + 1);
      EnumLinesSnoc(ms, i);
    } else {
      assert ms[..i] == ms;
    }
  }

  // ---------------------------------------------------------------------------
  // enum_data.cpp

  /** A row of `minion_info[]`, field by field as written. */
  datatype InfoRow = InfoRow(
    name: string, id: string, goldenId: string, tier: int, tribe: string,
    attack: int, health: int, taunt: string, divineShield: string, poisonous: string,
    windfury: string, cleave: string)

  /** The row of one entry. */
  function MinionRow(m: Entry): InfoRow {
    var e := m.main;
    InfoRow(
      CStr(Some(e.name)), CStr(Id(e)), CStr(if m.golden.Some? then Id(m.golden.value) else None),
      Tier(e), TribeOf(e), Int(e, "ATK"), Int(e, "HEALTH"),
      CBool(Bool(e, "TAUNT")), CBool(Bool(e, "DIVINE_SHIELD")), CBool(Bool(e, "POISONOUS")),
      CBool(Bool(e, "WINDFURY")), CBool(Cleaves(e)))
  }

  /** The rows of `minion_info[]`, one per entry in list order. */
  function MinionRows(ms: seq<Entry>): (r: seq<InfoRow>)
    ensures |r| == |ms|
  {
    seq(|ms|, i requires 0 <= i < |ms| => MinionRow(ms[i]))
  }

  /** A golden card is written by its id; a record without one gets `nullptr`. */
  lemma GoldenIdRow(m: Entry)
    requires m.golden.None? || m.golden.value.Card?
    ensures m.golden.None? <==> MinionRow(m).goldenId == "nullptr"
    ensures m.golden.Some? ==> MinionRow(m).goldenId == "\"" + m.golden.value.def.id + "\""
  {
    if m.golden.Some? {
      assert MinionRow(m).goldenId[0] == '"';
    }
  }

  /** The five lists of `write_minion_list`. */
  datatype ListKind = OneCost | TwoCost | FourCost | DeathrattleList | Legendary

  const ListKinds: seq<ListKind> := [OneCost, TwoCost, FourCost, DeathrattleList, Legendary]

  /** The filter of each list; every one of them leaves out tokens. */
  predicate Passes(k: ListKind, e: Entity) {
    && !IsToken(e)
    && match k
       case OneCost => Int(e, "COST") == 1
       case TwoCost => Int(e, "COST") == 2
       case FourCost => Int(e, "COST") == 4
       case DeathrattleList => Int(e, "DEATHRATTLE") != 0
       case Legendary => Int(e, "RARITY") == 5
  }

  /** The entries of list `k`, in list order. */
  function Selected(ms: seq<Entry>, k: ListKind): seq<Entry> {
    Filter(ms, (m: Entry) => Passes(k, m.main))
  }

  /** The values written into list `k`. */
  function ListValues(ms: seq<Entry>): (r: seq<string>)
    ensures |r| == |ms|
  {
    seq(|ms|, i requires 0 <= i < |ms| => Enum(ms[i].main))
  }

  /** `write_minion_list`: the loop that writes the values of the entries passing the filter. */
  method WriteMinionList(ms: seq<Entry>, k: ListKind) returns (values: seq<string>)
    ensures values == ListValues(Selected(ms, k))
  {
    values := [];
    for i := 0 to |ms|
      invariant values == ListValues(Selected(ms[..i], k))
    {
      FilterSnoc(ms, i, (m: Entry) => Passes(k, m.main));
      if Passes(k, ms[i].main) {
        values := values + [Enum(ms[i].main)];
      }
    }
    assert ms[..|ms|] == ms;
  }

  /** Each list holds only entries passing its filter, none of them a token, each taken from
      the minion list; the lists preserve list order by construction of `Filter`. */
  lemma SelectedPass(ms: seq<Entry>, k: ListKind)
    ensures forall i :: 0 <= i < |Selected(ms, k)| ==>
              Passes(k, Selected(ms, k)[i].main) && !IsToken(Selected(ms, k)[i].main)
              && Selected(ms, k)[i] in ms
  {
    FilterElements(ms, (m: Entry) => Passes(k, m.main));
  }

  /** A row of `hero_info[]`: the hero's name and id, and its hero power's name and id. */
  datatype HeroRow = HeroRow(name: string, id: string, powerName: string, powerId: string)

  /** The row of a hero; `None` when its hero power was not found, where reading the name of the
      missing card fails. */
  function HeroRowOf(h: Hero): Option<HeroRow> {
    match h.power
    case NoPower => Some(HeroRow(CStr(Some(h.entity.name)), CStr(Id(h.entity)), CStr(Some(NoneEntity.name)), CStr(None)))
    case PowerCard(p) => Some(HeroRow(CStr(Some(h.entity.name)), CStr(Id(h.entity)), CStr(p.name), CStr(Some(p.id))))
    case PowerNotFound(_) => None
  }

  /** The rows of `hero_info[]`, or `None` when one of them cannot be written. */
  function HeroRows(hs: seq<Hero>): (r: Option<seq<HeroRow>>)
    ensures r.None? <==> exists i :: 0 <= i < |hs| && hs[i].power.PowerNotFound?
    ensures r.Some? ==> |r.value| == |hs| && forall i :: 0 <= i < |hs| ==> Some(r.value[i]) == HeroRowOf(hs[i])
    decreases |hs|
  {
    if hs == [] then Some([])
    else
      var rest := HeroRows(hs[1..]);
      assert forall i :: 1 <= i < |hs| ==> hs[i] == hs[1..][i - 1];
      match HeroRowOf(hs[0])
      case None => None
      case Some(row) => if rest.None? then None else Some([row] + rest.value)
  }

  // ---------------------------------------------------------------------------
  // The whole run

  /** What the generator writes: the two enumerations of enums.hpp with their counts, and the
      tables and lists of enum_data.cpp. */
  datatype Output = Output(
    tribeEnum: seq<string>,
    minionEnum: seq<EnumLine>,
    minionCount: nat,
    heroEnum: seq<string>,
    heroCount: nat,
    tribeNames: seq<string>,
    minionInfo: seq<InfoRow>,
    lists: seq<seq<string>>,
    heroInfo: seq<HeroRow>)

  /** The final minion list, after sorting and the custom entries; `None` when sorting fails. */
  function MinionList(defs: seq<CardDef>): (r: Option<seq<Entry>>)
    ensures r.Some? ==> |r.value| >= 2
  {
    var x := Extracted(defs, |defs|);
    match SortMinions(x.minions)
    case None => None
    case Some(sorted) => Some(WithCustomMinions(sorted))
  }

  /** The final hero list, after sorting and the sentinel hero. */
  function HeroList(defs: seq<CardDef>): seq<Hero> {
    WithCustomHeroes(SortHeroes(Extracted(defs, |defs|).heroes))
  }

  /** The main program on a card database: `None` when it stops with an error. */
  function Generate(defs: seq<CardDef>): Option<Output> {
    match MinionList(defs)
    case None => None
    case Some(ms) =>
      var hs := HeroList(defs);
      match HeroRows(hs)
      case None => None
      case Some(heroInfo) =>
        Some(Output(
          TribeEnum(), EnumLines(ms), |ms|,
          seq(|hs|, i requires 0 <= i < |hs| => Enum(hs[i].entity)), |hs|,
          TribeNameRows(), MinionRows(ms),
          seq(|ListKinds|, j requires 0 <= j < |ListKinds| => ListValues(Selected(ms, ListKinds[j]))),
          heroInfo))
  }

  /** The generator fails exactly when a record has no regular card or a hero's power card is
      missing from the database. */
  lemma GenerateFails(defs: seq<CardDef>)
    ensures Generate(defs).None? <==>
      || (exists n :: n in Extracted(defs, |defs|).minions.slots
                      && Extracted(defs, |defs|).minions.slots[n].regular.None?)
      || (exists i :: 0 <= i < |HeroList(defs)| && HeroList(defs)[i].power.PowerNotFound?)
  {
    var r := Extracted(defs, |defs|).minions;
    RecordsAreKeptNames(defs, |defs|, "");
    if exists n :: n in r.slots && r.slots[n].regular.None? {
      var n :| n in r.slots && r.slots[n].regular.None?;
      var i :| 0 <= i < |r.order| && r.order[i] == n;
    }
  }

  /** The enumeration and the information table of a minion list are aligned: value `i` is the
      enumeration name of the name in row `i`, and both have one line per entry. */
  lemma MinionTablesAligned(ms: seq<Entry>)
    ensures var vs := Values(EnumLines(ms));
      && |vs| == |MinionRows(ms)| == |ms|
      && forall i :: 0 <= i < |ms| ==> vs[i] == EnumName(ms[i].main.name) && MinionRows(ms)[i].name == CStr(Some(ms[i].main.name))
  {
    EnumValuesAligned(ms);
  }

  /** What `Generate` writes for the minions, when it writes anything. */
  lemma GeneratedMinionTables(defs: seq<CardDef>)
    requires Generate(defs).Some?
    ensures MinionList(defs).Some?
    ensures var o := Generate(defs).value;
      var ms := MinionList(defs).value;
      o.minionEnum == EnumLines(ms) && o.minionInfo == MinionRows(ms) && o.minionCount == |ms|
  {
    hide EnumLines, MinionRows, Values, Extracted, SortMinions, TribeEnum, TribeNameRows, Selected, ListValues, HeroList, HeroRows;
  }

  /** The final minion list begins with the sentinel and ends with the custom Mama Bear. */
  lemma MinionListEnds(defs: seq<CardDef>)
    requires MinionList(defs).Some?
    ensures var ms := MinionList(defs).value;
      ms[0] == Entry(NoneEntity, None) && ms[|ms| - 1] == Entry(MamaBear, None)
  {
    hide Extracted, Entries, SortBy;
  }

  /** The generated enumeration and information table are aligned, `MinionType_count` counts
      both, the sentinel is value 0 and row 0, and the custom Mama Bear is the last entry. */
  lemma GeneratedMinionsAligned(defs: seq<CardDef>)
    requires Generate(defs).Some?
    ensures MinionList(defs).Some?
    ensures var o := Generate(defs).value;
      var ms := MinionList(defs).value;
      var vs := Values(o.minionEnum);
      && o.minionEnum == EnumLines(ms) && o.minionInfo == MinionRows(ms)
      && o.minionCount == |vs| == |o.minionInfo| == |ms|
      && vs[0] == Enum(NoneEntity) && o.minionInfo[0] == MinionRow(Entry(NoneEntity, None))
      && ms[|ms| - 1].main == MamaBear
  {
    GeneratedMinionTables(defs);
    var ms := MinionList(defs).value;
    MinionListEnds(defs);
    MinionTablesAligned(ms);
    hide Generate, MinionList, Values, EnumLines, Enum, CStr, MinionRow;
  }

  /** The sentinel's row: named "(none)", no ids, tier 0, no tribe, no stats and no keywords;
      its value is `None`. */
  lemma NoneRow()
    ensures Enum(NoneEntity) == "None"
    ensures var r := MinionRow(Entry(NoneEntity, None));
      && r.name == "\"(none)\"" && r.id == "nullptr" && r.goldenId == "nullptr"
      && r.tier == 0 && r.tribe == "None" && r.attack == 0 && r.health == 0
      && r.taunt == "false" && r.cleave == "false"
  {
    NoneEnumName();
  }

  /** Between the sentinel and Mama Bear, the minion list is the extracted records, ordered by
      (token, tier, name), with the records of equal keys in dictionary order. */
  lemma GeneratedMinionsSorted(defs: seq<CardDef>)
    requires MinionList(defs).Some?
    ensures var ms := MinionList(defs).value;
      var r := Extracted(defs, |defs|).minions;
      var middle := ms[1..|ms| - 1];
      && Entries(r).Some?
      && SortedBy(middle, MinionKey)
      && multiset(middle) == multiset(Entries(r).value)
      && forall k :: WithKey(middle, MinionKey, k) == WithKey(Entries(r).value, MinionKey, k)
  {
    var r := Extracted(defs, |defs|).minions;
    RecordsAreKeptNames(defs, |defs|, "");
    var es := Entries(r).value;
    SortBySorted(es, MinionKey);
    forall k
      ensures WithKey(SortBy(es, MinionKey), MinionKey, k) == WithKey(es, MinionKey, k)
    {
      SortByStable(es, MinionKey, k);
    }
  }

  /** The hero list is the sentinel hero, then the kept heroes ordered by name, the heroes with
      equal names in database order. */
  lemma GeneratedHeroesSorted(defs: seq<CardDef>)
    ensures var hs := HeroList(defs);
      var kept := Extracted(defs, |defs|).heroes;
      && hs[0] == NoneHero
      && SortedBy(hs[1..], HeroKey)
      && multiset(hs[1..]) == multiset(kept)
      && forall k :: WithKey(hs[1..], HeroKey, k) == WithKey(kept, HeroKey, k)
  {
    var kept := Extracted(defs, |defs|).heroes;
    SortBySorted(kept, HeroKey);
    forall k
      ensures WithKey(SortBy(kept, HeroKey), HeroKey, k) == WithKey(kept, HeroKey, k)
    {
      SortByStable(kept, HeroKey, k);
    }
  }
}
