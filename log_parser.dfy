// src/log_parser.cpp, "Log parser: tag/value pairs" and "Log parser": reading one line of a
// Hearthstone power log into the entities of an `HSGame`. Every spec function below takes the
// text, the cursor and the state before a step and gives whether the step succeeded, the state
// after it and where the cursor stops; each method is proved to do exactly that.
module PowerLog {
  import opened Util
  import opened Parser
  import opened HsGame

  // ---------------------------------------------------------------------------
  // The words of the log format

  const DebugLevel: CStr := "D"
  const PowerLine: CStr := "GameState.DebugPrintPower()"
  const GameLine: CStr := "GameState.DebugPrintGame()"
  const Dash: CStr := "-"
  const TagWord: CStr := "tag="
  const FullEntityWord: CStr := "FULL_ENTITY"
  const ShowEntityWord: CStr := "SHOW_ENTITY"
  const Separator: CStr := " - "
  const CreatingWord: CStr := "Creating ID="
  const UpdatingWord: CStr := "Updating "
  const EntityWord: CStr := "Entity="
  const CardIdWord: CStr := "CardID="
  const TagChangeWord: CStr := "TAG_CHANGE"
  const EntityRefWord: CStr := " Entity="
  const BlockStartWord: CStr := "BLOCK_START"
  const BlockTypeWord: CStr := " BlockType="
  const BlockEndWord: CStr := "BLOCK_END"
  const CreateGameWord: CStr := "CREATE_GAME"
  const PlayerWord: CStr := "Player EntityID="
  const GameEntityWord: CStr := "GameEntity EntityID="
  const OpenBracket: CStr := "["
  const IdWord: CStr := " id="
  const CloseBracket: CStr := "]"
  const GameEntityName: CStr := "GameEntity"
  const TavernName: CStr := "Bob's Tavern"
  const InnkeeperName: CStr := "The Innkeeper"
  const StepWord: CStr := "STEP "
  const ValueWord: CStr := "value="
  const MainReady: CStr := "MAIN_READY"
  const NextStepWord: CStr := "NEXT_STEP "
  const StateWord: CStr := "STATE "
  const Running: CStr := "RUNNING"
  const Complete: CStr := "COMPLETE"
  const TurnWord: CStr := "TURN value="
  const GameTypeWord: CStr := "GameType="
  const Battlegrounds: CStr := "GT_BATTLEGROUNDS"
  const PlayerIdWord: CStr := "PlayerID="
  const PlayerNameWord: CStr := ", PlayerName="

  // ---------------------------------------------------------------------------
  // Cursor helpers

  /** The first position from `i` on where `q` is written, or `None`. */
  function Find(s: string, i: nat, q: string): (r: Option<nat>)
    requires i <= |s|
    ensures r.Some? ==> i <= r.value <= |s| && IsPrefixAt(s, r.value, q)
    ensures r.Some? ==> forall x :: i <= x < r.value ==> !IsPrefixAt(s, x, q)
    ensures r.None? ==> forall x :: i <= x <= |s| ==> !IsPrefixAt(s, x, q)
    decreases |s| - i
  {
    if IsPrefixAt(s, i, q) then Some(i)
    else if i == |s| then Option.None
    else Find(s, i + 1, q)
  }

  /** `skip_until(q)`: the cursor moves past the first `q` from the cursor on; when there is
      none it stays. */
  method SkipUntil(p: StringParser, q: CStr) returns (ok: bool)
    requires p.Valid()
    modifies p
    ensures p.Valid()
    ensures ok == Find(p.text, old(p.pos), q).Some?
    ensures p.pos == if ok then Find(p.text, old(p.pos), q).value + |q| else old(p.pos)
  {
    var i := p.pos;
    while !IsPrefixAt(p.text, i, q)
      invariant old(p.pos) <= i <= |p.text| && p.pos == old(p.pos)
      invariant Find(p.text, old(p.pos), q) == Find(p.text, i, q)
      decreases |p.text| - i
    {
      if i == |p.text| {
        return false;
      }
      i := i + 1;
    }
    p.pos := i + |q|;
    ok := true;
  }

  /** The first position from `i` on holding `d`, or the end of `s`. */
  function StringTo(s: string, i: nat, d: char): (r: nat)
    requires i <= |s|
    ensures i <= r <= |s| && (r < |s| ==> s[r] == d)
    ensures forall x :: i <= x < r ==> s[x] != d
    decreases |s| - i
  {
    if i == |s| || s[i] == d then i else StringTo(s, i + 1, d)
  }

  /** `parse_string(out, d)` and `match_string(out, d)`: the text up to the next `d` or the end
      of the line, which the cursor stops before; an empty text is a failure. */
  method ParseString(p: StringParser, d: char) returns (ok: bool, w: string)
    requires p.Valid()
    modifies p
    ensures p.Valid()
    ensures p.pos == StringTo(p.text, old(p.pos), d)
    ensures w == p.text[old(p.pos)..p.pos] && ok == (w != [])
  {
    var i := p.pos;
    while i < |p.text| && p.text[i] != d
      invariant old(p.pos) <= i <= |p.text| && p.pos == old(p.pos)
      invariant StringTo(p.text, old(p.pos), d) == StringTo(p.text, i, d)
      decreases |p.text| - i
    {
      i := i + 1;
    }
    w := p.text[p.pos..i];
    p.pos := i;
    ok := w != [];
  }

  /** The first of `names`, from index `k` on, written at `i`: a chain of `match_exact` tests. */
  function FirstExact(s: string, i: nat, names: seq<string>, k: nat): (r: Option<nat>)
    requires k <= |names|
    ensures r.Some? ==> k <= r.value < |names| && IsPrefixAt(s, i, names[r.value])
    ensures r.Some? ==> forall x :: k <= x < r.value ==> !IsPrefixAt(s, i, names[x])
    ensures r.None? ==> forall x :: k <= x < |names| ==> !IsPrefixAt(s, i, names[x])
    decreases |names| - k
  {
    if k == |names| then Option.None
    else if IsPrefixAt(s, i, names[k]) then Some(k)
    else FirstExact(s, i, names, k + 1)
  }

  /** A chain of `match_exact` tests: the cursor moves past the first of `names` written there. */
  method MatchExactFirst(p: StringParser, names: seq<string>) returns (r: Option<nat>)
    requires p.Valid()
    modifies p
    ensures p.Valid()
    ensures r == FirstExact(p.text, old(p.pos), names, 0)
    ensures p.pos == if r.Some? then old(p.pos) + |names[r.value]| else old(p.pos)
  {
    var k := 0;
    while k < |names|
      invariant k <= |names| && p.pos == old(p.pos)
      invariant FirstExact(p.text, old(p.pos), names, 0) == FirstExact(p.text, old(p.pos), names, k)
    {
      if IsPrefixAt(p.text, p.pos, names[k]) {
        p.pos := p.pos + |names[k]|;
        return Some(k);
      }
      k := k + 1;
    }
    r := Option.None;
  }

  // ---------------------------------------------------------------------------
  // Tags and their values

  /** The tags `parse_tag_and_value` reads. */
  datatype Tag =
    | HealthTag | AttackTag | TauntTag | DivineShieldTag | PoisonousTag | WindfuryTag
    | PremiumTag | CardTypeTag | ZonePositionTag | ZoneTag | ControllerTag | PlayerIdTag
    | DummyPlayerTag | UsedTag | TechLevelTag | PlayerTechLevelTag | DamageTag | AttachedTag

  /** The order in which the tags are tried. */
  const TagOrder: seq<Tag> := [
    HealthTag, AttackTag, TauntTag, DivineShieldTag, PoisonousTag, WindfuryTag, PremiumTag,
    CardTypeTag, ZonePositionTag, ZoneTag, ControllerTag, PlayerIdTag, DummyPlayerTag, UsedTag,
    TechLevelTag, PlayerTechLevelTag, DamageTag, AttachedTag]

  /** The names of the tags in the log, in the order of `TagOrder`; tag 1398 is "hero power
      used". */
  const TagNames: seq<string> := [
    "HEALTH", "ATK", "TAUNT", "DIVINE_SHIELD", "POISONOUS", "WINDFURY", "PREMIUM", "CARDTYPE",
    "ZONE_POSITION", "ZONE", "CONTROLLER", "PLAYER_ID", "BACON_DUMMY_PLAYER", "1398", "TECH_LEVEL",
    "PLAYER_TECH_LEVEL", "DAMAGE", "ATTACHED"]

  const ValueSuffix: string := " value="

  /** The texts tried in turn: each tag name followed by " value=". */
  function TagKeys(): (r: seq<string>)
    ensures |r| == |TagOrder|
  {
    seq(|TagNames|, k requires 0 <= k < |TagNames| => TagNames[k] + ValueSuffix)
  }

  /** A tag whose value is a number stored in one field. */
  predicate NumericTag(t: Tag) {
    t != CardTypeTag && t != ZoneTag && t != AttachedTag
  }

  /** The field a numeric tag writes. */
  function SetTag(e: Entity, t: Tag, v: int): (r: Entity)
    requires NumericTag(t)
    ensures r.hsId == e.hsId && r.cardType == e.cardType && r.zone == e.zone
    ensures r.attached == e.attached && r.enchantments == e.enchantments
  {
    match t
    case HealthTag => e.(health := v)
    case AttackTag => e.(attack := v)
    case TauntTag => e.(taunt := v)
    case DivineShieldTag => e.(divineShield := v)
    case PoisonousTag => e.(poisonous := v)
    case WindfuryTag => e.(windfury := v)
    case PremiumTag => e.(premium := v)
    case ZonePositionTag => e.(zonePosition := v)
    case ControllerTag => e.(controller := v)
    case PlayerIdTag => e.(playerId := v)
    case DummyPlayerTag => e.(isDummyPlayer := v)
    case UsedTag => e.(used := v)
    case TechLevelTag => e.(techLevel := v)
    case PlayerTechLevelTag => e.(techLevel := v)
    case DamageTag => e.(damage := v)
  }

  /** The `CARDTYPE` values, in the order they are tried, and what each means. The last name
      is cut short in the log format, so it also accepts the full `..._TARGET`. */
  const EntityTypeNames: seq<string> :=
    ["MINION", "HERO_POWER", "HERO", "ENCHANTMENT", "GAME", "PLAYER", "MOVE_MINION_HOVER_TARGE"]
  const EntityTypeOrder: seq<EntityType> := [
    MinionEntity, HeroPowerEntity, HeroEntity, EnchantmentEntity, GameEntity, PlayerEntity,
    HoverTargetEntity]

  /** The `ZONE` values, in the order they are tried, and what each means. */
  const ZoneNames: seq<string> := ["SETASIDE", "PLAY", "HAND", "GRAVEYARD", "REMOVEDFROMGAME"]
  const ZoneOrder: seq<Zone> := [SetAside, Play, Hand, Graveyard, RemovedFromGame]

  /** The `ATTACHED` update: when the tag changes, the entity records its new target, and the
      target, when the game has it, lists the entity among its enchantments. */
  function Attach(es: map<int, Entity>, id: int, a: int): (r: map<int, Entity>)
    requires id in es
    ensures r.Keys == es.Keys && r[id].attached == a
    ensures a != id && a in es && a != es[id].attached ==>
              r[a].enchantments == es[a].enchantments + [id]
    ensures forall x :: x in es && x != id && x != a ==> r[x] == es[x]
  {
    if a == es[id].attached then es
    else
      var es1 := es[id := es[id].(attached := a)];
      if a in es1 then es1[a := es1[a].(enchantments := es1[a].enchantments + [id])] else es1
  }

  /** The value of tag `t` for entity `id`, read at `j`. A value that does not parse fails, and
      for the two enumerated tags it also sets the field to "unknown". Only the entity and, for
      `ATTACHED`, its target change. */
  function TagValueAt(s: string, j: nat, es: map<int, Entity>, id: int, t: Tag): (r: Parsed<map<int, Entity>>)
    requires j <= |s| && id in es
    ensures j <= r.pos <= |s|
    ensures r.value.Keys == es.Keys
    ensures forall x :: x in es && x != id && x != r.value[id].attached ==> r.value[x] == es[x]
  {
    var e := es[id];
    if t == CardTypeTag then
      match FirstExact(s, j, EntityTypeNames, 0)
      case None => Parsed(false, es[id := e.(cardType := UnknownEntity)], j)
      case Some(x) =>
        Parsed(true, es[id := e.(cardType := EntityTypeOrder[x])], j + |EntityTypeNames[x]|)
    else if t == ZoneTag then
      match FirstExact(s, j, ZoneNames, 0)
      case None => Parsed(false, es[id := e.(zone := UnknownZone)], j)
      case Some(x) => Parsed(true, es[id := e.(zone := ZoneOrder[x])], j + |ZoneNames[x]|)
    else
      match ScanInt(s, j)
      case None => Parsed(false, es, j)
      case Some(n) =>
        Parsed(true, if t == AttachedTag then Attach(es, id, n.0) else es[id := SetTag(e, t, n.0)], n.1)
  }

  /** `parse_tag_and_value` on entity `id`: the first tag key written at `i`, then its value. */
  function TagAt(s: string, i: nat, es: map<int, Entity>, id: int): (r: Parsed<map<int, Entity>>)
    requires i <= |s| && id in es
    ensures i <= r.pos <= |s|
    ensures r.value.Keys == es.Keys
    ensures forall x :: x in es && x != id && x != r.value[id].attached ==> r.value[x] == es[x]
  {
    match FirstExact(s, i, TagKeys(), 0)
    case None => Parsed(false, es, i)
    case Some(k) => TagValueAt(s, i + |TagKeys()[k]|, es, id, TagOrder[k])
  }

  /** The `parse_tag_value` overloads: a number, or one of the names of an enumeration. */
  method ParseTagValue(p: StringParser, g: HSGame, id: int, t: Tag) returns (ok: bool)
    requires p.Valid() && id in g.entities
    modifies p, g`entities
    ensures p.Valid()
    ensures TagValueAt(p.text, old(p.pos), old(g.entities), id, t) == Parsed(ok, g.entities, p.pos)
  {
    var e := g.entities[id];
    if t == CardTypeTag {
      var x := MatchExactFirst(p, EntityTypeNames);
      if x.None? {
        g.entities := g.entities[id := e.(cardType := UnknownEntity)];
        return false;
      }
      g.entities := g.entities[id := e.(cardType := EntityTypeOrder[x.value])];
      return true;
    }
    if t == ZoneTag {
      var x := MatchExactFirst(p, ZoneNames);
      if x.None? {
        g.entities := g.entities[id := e.(zone := UnknownZone)];
        return false;
      }
      g.entities := g.entities[id := e.(zone := ZoneOrder[x.value])];
      return true;
    }
    var n;
    ok, n := p.ParseInt();
    if !ok {
      return;
    }
    if t == AttachedTag {
      if n != e.attached {
        g.entities := g.entities[id := e.(attached := n)];
        if n in g.entities {
          g.entities := g.entities[n := g.entities[n].(enchantments := g.entities[n].enchantments + [id])];
        }
      }
      return;
    }
    g.entities := g.entities[id := SetTag(e, t, n)];
  }

  /** `parse_tag_and_value`. */
  method ParseTagAndValue(p: StringParser, g: HSGame, id: int) returns (ok: bool)
    requires p.Valid() && id in g.entities
    modifies p, g`entities
    ensures p.Valid()
    ensures TagAt(p.text, old(p.pos), old(g.entities), id) == Parsed(ok, g.entities, p.pos)
  {
    hide TagValueAt, TagKeys, FirstExact;
    var k := MatchExactFirst(p, TagKeys());
    if k.None? {
      return false;
    }
    ok := ParseTagValue(p, g, id, TagOrder[k.value]);
  }

  // ---------------------------------------------------------------------------
  // Entity references

  /** `parse_existing_entity_id`: "[", then past the next " id=", a number, then past the next
      "]". The number is read even when the closing bracket is missing. */
  function ExistingIdAt(s: string, i: nat): (r: Parsed<int>)
    requires i <= |s|
    ensures i <= r.pos <= |s|
  {
    if !IsPrefixAt(s, i, OpenBracket) then Parsed(false, 0, i)
    else
      match Find(s, i + |OpenBracket|, IdWord)
      case None => Parsed(false, 0, i + |OpenBracket|)
      case Some(j) =>
        match ScanInt(s, j + |IdWord|)
        case None => Parsed(false, 0, j + |IdWord|)
        case Some(n) =>
          match Find(s, n.1, CloseBracket)
          case None => Parsed(false, n.0, n.1)
          case Some(k) => Parsed(true, n.0, k + |CloseBracket|)
  }

  method ParseExistingEntityId(p: StringParser) returns (ok: bool, id: int)
    requires p.Valid()
    modifies p
    ensures p.Valid()
    ensures ExistingIdAt(p.text, old(p.pos)) == Parsed(ok, id, p.pos)
  {
    id := 0;
    ok := p.ExactMatch(OpenBracket);
    if !ok {
      return;
    }
    ok := SkipUntil(p, IdWord);
    if !ok {
      return;
    }
    ok, id := p.ParseInt();
    if !ok {
      id := 0;
      return;
    }
    ok := SkipUntil(p, CloseBracket);
  }

  /** The state of the log parser: the game and the entity a FULL_ENTITY block is filling. */
  datatype ParserState = ParserState(
    entities: map<int, Entity>,
    players: seq<int>,
    gameEntity: Option<int>,
    inBattlegrounds: bool,
    turn: int,
    current: Option<int>)

  /** Every entity the state refers to exists. */
  predicate Known(st: ParserState) {
    && (forall k :: 0 <= k < |st.players| ==> st.players[k] in st.entities)
    && (st.gameEntity.Some? ==> st.gameEntity.value in st.entities)
    && (st.current.Some? ==> st.current.value in st.entities)
  }

  /** An entity id found in the text: the entity when the game has it, a failure otherwise. */
  function Lookup(es: map<int, Entity>, id: int, pos: nat): (r: Parsed<Option<int>>)
    ensures r.pos == pos && r.ok == r.value.Some? && (r.ok ==> r.value.value in es)
  {
    if id in es then Parsed(true, Some(id), pos) else Parsed(false, Option.None, pos)
  }

  /** `parse_existing_entity`: an entity written as a bracketed description or as a number;
      failing both, the text "GameEntity" when the game has one, and failing that "Bob's Tavern"
      or "The Innkeeper" for the second player. A text that is tried is consumed whether or not
      the game has the entity. Both callers start from a null entity, so a failure leaves
      `None`. */
  function ExistingEntityAt(s: string, i: nat, st: ParserState): (r: Parsed<Option<int>>)
    requires i <= |s|
    ensures i <= r.pos <= |s| && r.ok == r.value.Some?
    ensures Known(st) && r.ok ==> r.value.value in st.entities
  {
    var b := ExistingIdAt(s, i);
    if b.ok then Lookup(st.entities, b.value, b.pos)
    else
      match ScanInt(s, b.pos)
      case Some(n) => Lookup(st.entities, n.0, n.1)
      case None =>
        var ge := IsPrefixAt(s, b.pos, GameEntityName);
        var j := if ge then b.pos + |GameEntityName| else b.pos;
        if ge && st.gameEntity.Some? then Parsed(true, st.gameEntity, j)
        else
          var bob := IsPrefixAt(s, j, TavernName);
          var inn := !bob && IsPrefixAt(s, j, InnkeeperName);
          var k := if bob then j + |TavernName| else if inn then j + |InnkeeperName| else j;
          if (bob || inn) && |st.players| >= 2 then Parsed(true, Some(st.players[1]), k)
          else Parsed(false, Option.None, k)
  }

  /** `parse_create_entity`: a number, and a new entity with that id, which replaces any entity
      the game had under it and becomes the current one. */
  function CreateAt(s: string, i: nat, st: ParserState): (r: Parsed<ParserState>)
    requires i <= |s|
    ensures i <= r.pos <= |s|
    ensures Known(st) ==> Known(r.value)
    ensures r.ok ==> r.value.current.Some? && r.value.current.value in r.value.entities
  {
    match ScanInt(s, i)
    case None => Parsed(false, st, i)
    case Some(n) =>
      Parsed(true, st.(entities := st.entities[n.0 := NewEntity(n.0)], current := Some(n.0)), n.1)
  }

  /** The card id of the current entity: after white space, "CardID=" and the text up to a
      carriage return, which must not be empty. */
  function CardIdAt(s: string, i: nat, st: ParserState): (r: Parsed<ParserState>)
    requires i <= |s| && st.current.Some? && st.current.value in st.entities
    ensures i <= r.pos <= |s|
    ensures r.value.entities.Keys == st.entities.Keys
    ensures r.value == st.(entities := r.value.entities)
  {
    var j := SkipSpaces(s, i);
    if !IsPrefixAt(s, j, CardIdWord) then Parsed(false, st, j)
    else
      var k := j + |CardIdWord|;
      var e := StringTo(s, k, '\r');
      if e == k then Parsed(false, st, k)
      else
        var c := st.current.value;
        Parsed(true, st.(entities := st.entities[c := st.entities[c].(hsId := s[k..e])]), e)
  }

  /** The body of a FULL_ENTITY or SHOW_ENTITY line, after its keyword: an optional " - ", then
      "Creating ID=" with a new entity and its card id, or "Updating " with an existing entity,
      which becomes the current one, and its card id. */
  function FullEntityAt(s: string, i: nat, st: ParserState): (r: Parsed<ParserState>)
    requires i <= |s| && Known(st)
    ensures i <= r.pos <= |s| && Known(r.value)
  {
    var j := if IsPrefixAt(s, i, Separator) then i + |Separator| else i;
    if IsPrefixAt(s, j, CreatingWord) then
      var c := CreateAt(s, j + |CreatingWord|, st);
      if !c.ok then c
      else
        var d := CardIdAt(s, c.pos, c.value);
        if !d.ok then d
        else Parsed(true, d.value, match BlankTo(s, d.pos) case Some(b) => b case None => d.pos)
    else if IsPrefixAt(s, j, UpdatingWord) then
      var k := j + |UpdatingWord|;
      var k2 := if IsPrefixAt(s, k, EntityWord) then k + |EntityWord| else k;
      var f := ExistingEntityAt(s, k2, st);
      var st2 := st.(current := f.value);
      if !f.ok then Parsed(false, st2, f.pos) else CardIdAt(s, f.pos, st2)
    else Parsed(false, st, j)
  }

  /** `parse_game_entity_tag_change`, after "tag=": the step, the game state, or the turn. A
      step consumes "MAIN_READY", the point where `on_step` builds the boards of a battle; a
      COMPLETE state leaves Battlegrounds. */
  ghost function GameTagAt(s: string, i: nat, st: ParserState): (r: Parsed<ParserState>)
    requires i <= |s|
    ensures i <= r.pos <= |s|
    ensures r.value == st.(inBattlegrounds := r.value.inBattlegrounds, turn := r.value.turn)
    ensures r.value.inBattlegrounds ==> st.inBattlegrounds
  {
    if IsPrefixAt(s, i, StepWord) then
      var j := i + |StepWord|;
      if !IsPrefixAt(s, j, ValueWord) then Parsed(false, st, j)
      else
        var k := j + |ValueWord|;
        Parsed(true, st, if IsPrefixAt(s, k, MainReady) then k + |MainReady| else k)
    else if IsPrefixAt(s, i, NextStepWord) then Parsed(true, st, i + |NextStepWord|)
    else if IsPrefixAt(s, i, StateWord) then
      var j := i + |StateWord|;
      if !IsPrefixAt(s, j, ValueWord) then Parsed(false, st, j)
      else
        var k := j + |ValueWord|;
        if PrefixMatch(s, k, Running).Some? then Parsed(true, st, MatchPos(s, k, Running))
        else if PrefixMatch(s, k, Complete).Some? then
          Parsed(true, st.(inBattlegrounds := false), MatchPos(s, k, Complete))
        else Parsed(true, st, k)
    else if IsPrefixAt(s, i, TurnWord) then
      var j := i + |TurnWord|;
      match ScanInt(s, j)
      case None => Parsed(false, st, j)
      case Some(n) => Parsed(true, st.(turn := n.0), n.1)
    else Parsed(false, st, i)
  }

  /** A TAG_CHANGE line, after its keyword: " Entity=", an existing entity, "tag=", and then a
      game tag when the entity is the game entity, an entity tag otherwise. */
  ghost function TagChangeAt(s: string, i: nat, st: ParserState): (r: Parsed<ParserState>)
    requires i <= |s| && Known(st)
    ensures i <= r.pos <= |s| && Known(r.value)
    ensures r.value.current == st.current
  {
    if !IsPrefixAt(s, i, EntityRefWord) then Parsed(false, st, i)
    else
      var f := ExistingEntityAt(s, i + |EntityRefWord|, st);
      if !f.ok then Parsed(false, st, f.pos)
      else
        var j := SkipSpaces(s, f.pos);
        if !IsPrefixAt(s, j, TagWord) then Parsed(false, st, j)
        else if f.value == st.gameEntity then GameTagAt(s, j + |TagWord|, st)
        else
          var t := TagAt(s, j + |TagWord|, st.entities, f.value.value);
          Parsed(t.ok, st.(entities := t.value), t.pos)
  }

  /** The body of a GameState.DebugPrintPower() line. A "tag=" line while an entity is current
      sets a tag of that entity; any other line ends the FULL_ENTITY block. */
  ghost function BodyAt(s: string, i: nat, st: ParserState): (r: Parsed<ParserState>)
    requires i <= |s| && Known(st)
    ensures i <= r.pos <= |s| && Known(r.value)
  {
    if st.current.Some? && IsPrefixAt(s, i, TagWord) then
      var t := TagAt(s, i + |TagWord|, st.entities, st.current.value);
      Parsed(t.ok, st.(entities := t.value), t.pos)
    else EventAt(s, i, st.(current := Option.None))
  }

  /** A body outside a FULL_ENTITY block: it creates or updates entities, changes a tag, or
      starts a new game. Lines the parser does not know fail; block starts and ends succeed. */
  ghost function EventAt(s: string, i: nat, st: ParserState): (r: Parsed<ParserState>)
    requires i <= |s| && Known(st)
    ensures i <= r.pos <= |s| && Known(r.value)
  {
    if IsPrefixAt(s, i, FullEntityWord) || IsPrefixAt(s, i, ShowEntityWord) then
      FullEntityAt(s, i + |FullEntityWord|, st)
    else if IsPrefixAt(s, i, TagChangeWord) then TagChangeAt(s, i + |TagChangeWord|, st)
    else OutlineAt(s, i, st)
  }

  /** The lines that give the game its outline: block starts and ends, a new game, and the
      players and the game entity. */
  ghost function OutlineAt(s: string, i: nat, st: ParserState): (r: Parsed<ParserState>)
    requires i <= |s| && Known(st)
    ensures i <= r.pos <= |s| && Known(r.value)
  {
    if IsPrefixAt(s, i, BlockStartWord) then
      var j := i + |BlockStartWord|;
      if IsPrefixAt(s, j, BlockTypeWord) then Parsed(true, st, j + |BlockTypeWord|)
      else Parsed(false, st, j)
    else if IsPrefixAt(s, i, BlockEndWord) then Parsed(true, st, i + |BlockEndWord|)
    else if IsPrefixAt(s, i, CreateGameWord) then
      Parsed(true, st.(entities := map[], gameEntity := Option.None, players := [], current := Option.None),
             i + |CreateGameWord|)
    else if IsPrefixAt(s, i, PlayerWord) then RegisterAt(s, i + |PlayerWord|, st, true)
    else if IsPrefixAt(s, i, GameEntityWord) then RegisterAt(s, i + |GameEntityWord|, st, false)
    else Parsed(false, st, i)
  }

  /** "Player EntityID=" and "GameEntity EntityID=": a new entity, which joins the players or
      becomes the game entity. */
  function RegisterAt(s: string, i: nat, st: ParserState, player: bool): (r: Parsed<ParserState>)
    requires i <= |s| && Known(st)
    ensures i <= r.pos <= |s| && Known(r.value)
  {
    var c := CreateAt(s, i, st);
    if !c.ok then c
    else if player then Parsed(true, c.value.(players := c.value.players + [c.value.current.value]), c.pos)
    else Parsed(true, c.value.(gameEntity := c.value.current), c.pos)
  }

  /** The body of a GameState.DebugPrintGame() line: the game type, which says whether this is
      a Battlegrounds game, or a player line, which is checked and ignored. */
  function GameLineAt(s: string, i: nat, st: ParserState): (r: Parsed<ParserState>)
    requires i <= |s|
    ensures i <= r.pos <= |s|
    ensures r.value == st.(inBattlegrounds := r.value.inBattlegrounds)
  {
    if IsPrefixAt(s, i, GameTypeWord) then
      var j := i + |GameTypeWord|;
      var bg := IsPrefixAt(s, j, Battlegrounds);
      Parsed(true, st.(inBattlegrounds := bg), if bg then j + |Battlegrounds| else j)
    else if IsPrefixAt(s, i, PlayerIdWord) then
      var j := i + |PlayerIdWord|;
      match ScanInt(s, j)
      case None => Parsed(false, st, j)
      case Some(n) =>
        if IsPrefixAt(s, n.1, PlayerNameWord) then Parsed(true, st, n.1 + |PlayerNameWord|)
        else Parsed(false, st, n.1)
    else Parsed(false, st, i)
  }

  /** `parse_power_log_line`: "D", a time stamp, then the kind of line. */
  ghost function LineAt(s: string, i: nat, st: ParserState): (r: Parsed<ParserState>)
    requires i <= |s| && Known(st)
    ensures i <= r.pos <= |s| && Known(r.value)
  {
    if PrefixMatch(s, i, DebugLevel).None? then Parsed(false, st, i)
    else KindAt(s, SkipSpaces(s, StringTo(s, SkipSpaces(s, MatchPos(s, i, DebugLevel)), ' ')), st)
  }

  /** A GameState.DebugPrintPower() or GameState.DebugPrintGame() line; other lines are accepted
      and change nothing. */
  ghost function KindAt(s: string, j: nat, st: ParserState): (r: Parsed<ParserState>)
    requires j <= |s| && Known(st)
    ensures j <= r.pos <= |s| && Known(r.value)
  {
    if IsPrefixAt(s, j, PowerLine) then SectionAt(s, j + |PowerLine|, st, true)
    else if IsPrefixAt(s, j, GameLine) then SectionAt(s, j + |GameLine|, st, false)
    else Parsed(true, st, j)
  }

  /** The body of a line, which follows the next "-" and white space. */
  ghost function SectionAt(s: string, k: nat, st: ParserState, power: bool): (r: Parsed<ParserState>)
    requires k <= |s| && Known(st)
    ensures k <= r.pos <= |s| && Known(r.value)
  {
    match Find(s, k, Dash)
    case None => Parsed(false, st, k)
    case Some(d) =>
      var b := SkipSpaces(s, d + |Dash|);
      if power then BodyAt(s, b, st) else GameLineAt(s, b, st)
  }

  // ---------------------------------------------------------------------------
  // Properties

  /** The tag names are distinct and hold no space. */
  lemma TagNamesPlain()
    ensures forall k :: 0 <= k < |TagNames| ==> ' ' !in TagNames[k]
    ensures forall k1, k2 :: 0 <= k1 < k2 < |TagNames| ==> TagNames[k1] != TagNames[k2]
  {
  }

  /** Each key is its tag's name followed by " value=". */
  lemma TagKeysAre()
    ensures forall k :: 0 <= k < |TagOrder| ==> TagKeys()[k] == TagNames[k] + ValueSuffix
  {
  }

  /** A name without spaces followed by " value=": the name, then the first space. */
  lemma SuffixedName(s: string, i: nat, a: string)
    requires ' ' !in a && IsPrefixAt(s, i, a + ValueSuffix)
    ensures s[i..i + |a|] == a && s[i + |a|] == ' '
    ensures forall x :: i <= x < i + |a| ==> s[x] != ' '
  {
    var ka := a + ValueSuffix;
    assert s[i..i + |a|] == s[i..i + |ka|][..|a|] == ka[..|a|] == a;
    assert s[i + |a|] == s[i..i + |ka|][|a|] == ka[|a|];
    forall x | i <= x < i + |a|
      ensures s[x] != ' '
    {
      assert s[x] == a[x - i];
      assert a[x - i] in a;
    }
  }

  /** Two names without spaces, each followed by " value=", cannot both stand at one place
      unless they are the same name. */
  lemma SuffixedNamesAgree(a: string, b: string, s: string, i: nat)
    requires ' ' !in a && ' ' !in b
    requires IsPrefixAt(s, i, a + ValueSuffix) && IsPrefixAt(s, i, b + ValueSuffix)
    ensures a == b
  {
    SuffixedName(s, i, a);
    SuffixedName(s, i, b);
  }

  /** The order of the tag tests does not matter: no key is a prefix of another, so the chain
      stops at key `k` exactly when key `k` is written there. */
  lemma TagKeyFound(s: string, i: nat, k: nat)
    requires k < |TagOrder|
    ensures FirstExact(s, i, TagKeys(), 0) == Some(k) <==> IsPrefixAt(s, i, TagKeys()[k])
  {
    if IsPrefixAt(s, i, TagKeys()[k]) {
      var r := FirstExact(s, i, TagKeys(), 0);
      assert r.Some?;
      TagKeysAre();
      TagNamesPlain();
      SuffixedNamesAgree(TagNames[r.value], TagNames[k], s, i);
      assert r.value <= k;
    }
  }

  /** The partner of writing a numeric tag: "NAME value=" and a number read back set that
      field of the entity to the number, and nothing else. */
  lemma NumericTagRoundTrip(s: string, i: nat, es: map<int, Entity>, id: int, k: nat, v: int)
    requires id in es && k < |TagOrder| && NumericTag(TagOrder[k])
    requires IsPrefixAt(s, i, TagKeys()[k] + IntToString(v))
    requires var e := i + |TagKeys()[k]| + |IntToString(v)|; e == |s| || !IsDigit(s[e])
    ensures TagAt(s, i, es, id)
         == Parsed(true, es[id := SetTag(es[id], TagOrder[k], v)], i + |TagKeys()[k]| + |IntToString(v)|)
  {
    hide TagKeys, IntToString, ScanInt, IsPrefixAt, FirstExact, TagValueAt, TagAt;
    var key := TagKeys()[k];
    var w := IntToString(v);
    var j := i + |key|;
    PrefixSplit(s, i, key, w);
    TagKeyFound(s, i, k);
    ScanIntAt(s, j, v);
    TagAtFound(s, i, es, id, k);
    NumericValue(s, j, es, id, TagOrder[k], v, j + |w|);
  }

  /** Once the key table has matched entry `k`, the tag line is that tag's value reader. */
  lemma TagAtFound(s: string, i: nat, es: map<int, Entity>, id: int, k: nat)
    requires i <= |s| && id in es && k < |TagOrder| && FirstExact(s, i, TagKeys(), 0) == Some(k)
    ensures i + |TagKeys()[k]| <= |s|
    ensures TagAt(s, i, es, id) == TagValueAt(s, i + |TagKeys()[k]|, es, id, TagOrder[k])
  {
    hide TagKeys, IntToString, ScanInt, TagValueAt;
  }

  /** A number read for a numeric tag lands in that tag's field. */
  lemma NumericValue(s: string, j: nat, es: map<int, Entity>, id: int, t: Tag, v: int, e: nat)
    requires j <= |s| && id in es && NumericTag(t) && ScanInt(s, j) == Some((v, e))
    ensures TagValueAt(s, j, es, id, t) == Parsed(true, es[id := SetTag(es[id], t, v)], e)
  {
  }

  /** `CARDTYPE` tests HERO_POWER before HERO, which is a prefix of it: a hero power is not
      read as a hero. */
  lemma HeroPowerBeforeHero(s: string, j: nat)
    requires IsPrefixAt(s, j, "HERO_POWER")
    ensures IsPrefixAt(s, j, "HERO")
    ensures FirstExact(s, j, EntityTypeNames, 0) == Some(1) && EntityTypeOrder[1] == HeroPowerEntity
  {
    assert s[j..j + 4] == s[j..j + 10][..4];
    assert s[j] == s[j..j + 10][0] == 'H';
  }

  /** A repeated ATTACHED value changes nothing: the target lists the enchantment once per
      change of target. */
  lemma AttachAgain(es: map<int, Entity>, id: int, a: int)
    requires id in es
    ensures Attach(Attach(es, id, a), id, a) == Attach(es, id, a)
  {
  }

  /** Moving an enchantment to another target does not take it off the old one: the old
      target keeps listing it. */
  lemma AttachMoves(es: map<int, Entity>, id: int, a: int, b: int)
    requires id in es && a in es && a != id && b != a && a != es[id].attached
    ensures id in Attach(Attach(es, id, a), id, b)[a].enchantments
  {
  }

  /** Where `q` is written at `j` and nowhere between `i` and `j`, the search finds `j`. */
  lemma {:induction false} FindAt(s: string, i: nat, q: string, j: nat)
    requires i <= j <= |s| && IsPrefixAt(s, j, q)
    requires forall x :: i <= x < j ==> !IsPrefixAt(s, x, q)
    ensures Find(s, i, q) == Some(j)
    decreases j - i
  {
    if i < j {
      FindAt(s, i + 1, q, j);
    }
  }

  /** The partner of writing an entity as "[entityName=... id=N ...]": with no space before
      " id=" and no bracket after the number, the id is read back and the cursor ends after
      the closing bracket. */
  lemma ExistingIdRoundTrip(head: string, n: int, rest: string, tail: string)
    requires ' ' !in head && ']' !in rest
    requires rest == [] || !IsDigit(rest[0])
    ensures var s := OpenBracket + head + IdWord + IntToString(n) + rest + CloseBracket + tail;
            ExistingIdAt(s, 0) == Parsed(true, n, |s| - |tail|)
  {
    var w := IntToString(n);
    var s := OpenBracket + head + IdWord + w + rest + CloseBracket + tail;
    var j := |OpenBracket| + |head|;
    var e := j + |IdWord| + |w|;
    var c := e + |rest|;
    SevenParts(OpenBracket, head, IdWord, w, rest, CloseBracket, tail);
    hide IsPrefixAt, IntToString, ScanInt, Find;
    forall x | 1 <= x < j
      ensures !IsPrefixAt(s, x, IdWord)
    {
      CharOf(s, 1, head, x - 1);
      assert head[x - 1] in head;
      NotPrefixByChar(s, x, IdWord);
    }
    FindAt(s, 1, IdWord, j);
    if rest == [] {
      CharOf(s, c, CloseBracket, 0);
    } else {
      CharOf(s, e, rest, 0);
    }
    ScanIntAt(s, j + |IdWord|, n);
    forall x | e <= x < c
      ensures !IsPrefixAt(s, x, CloseBracket)
    {
      CharOf(s, e, rest, x - e);
      assert rest[x - e] in rest;
      NotPrefixByChar(s, x, CloseBracket);
    }
    FindAt(s, e, CloseBracket, c);
  }

  /** A text written at `i` is made of its parts, each at its place. */
  lemma PrefixSplit(s: string, i: nat, a: string, b: string)
    requires IsPrefixAt(s, i, a + b)
    ensures IsPrefixAt(s, i, a) && IsPrefixAt(s, i + |a|, b)
  {
    assert s[i..i + |a|] == s[i..i + |a + b|][..|a|];
    assert s[i + |a|..i + |a + b|] == s[i..i + |a + b|][|a|..];
  }

  /** A text does not stand where its first character is not. */
  lemma NotPrefixByChar(s: string, x: nat, q: string)
    requires q != [] && x < |s| && s[x] != q[0]
    ensures !IsPrefixAt(s, x, q)
  {
    if x + |q| <= |s| {
      assert s[x..x + |q|][0] == s[x];
    }
  }

  /** A character of a text written at `x`. */
  lemma CharOf(s: string, x: nat, q: string, m: nat)
    requires IsPrefixAt(s, x, q) && m < |q|
    ensures x + m < |s| && s[x + m] == q[m]
  {
    assert s[x + m] == s[x..x + |q|][m];
  }

  /** The line "FULL_ENTITY - Creating ID=N CardID=X". */
  function CreatingText(n: int, id: string): string {
    FullEntityWord + Separator + CreatingWord + IntToString(n) + " " + CardIdWord + id
  }

  /** Where the parts of seven texts written one after the other stand. */
  lemma SevenParts(a: string, b: string, c: string, d: string, e: string, f: string, g: string)
    ensures var s := a + b + c + d + e + f + g;
      && IsPrefixAt(s, 0, a) && IsPrefixAt(s, |a|, b) && IsPrefixAt(s, |a| + |b|, c)
      && IsPrefixAt(s, |a| + |b| + |c|, d) && IsPrefixAt(s, |a| + |b| + |c| + |d|, e)
      && IsPrefixAt(s, |a| + |b| + |c| + |d| + |e|, f)
      && s[|a| + |b| + |c| + |d| + |e| + |f|..] == g
  {
    var s := a + b + c + d + e + f + g;
    assert s[0..|s|] == s;
    PrefixSplit(s, 0, a + b + c + d + e + f, g);
    PrefixSplit(s, 0, a + b + c + d + e, f);
    PrefixSplit(s, 0, a + b + c + d, e);
    PrefixSplit(s, 0, a + b + c, d);
    PrefixSplit(s, 0, a + b, c);
    PrefixSplit(s, 0, a, b);
    assert s[|a| + |b| + |c| + |d| + |e| + |f|..] == s[|s| - |g|..|s|];
  }

  /** Where the parts of a Creating line stand. */
  lemma CreatingTextParts(n: int, id: string)
    ensures var s := CreatingText(n, id);
      var j := |FullEntityWord| + |Separator| + |CreatingWord|;
      var w := IntToString(n);
      && IsPrefixAt(s, 0, FullEntityWord) && !IsPrefixAt(s, 0, TagWord)
      && IsPrefixAt(s, |FullEntityWord|, Separator)
      && IsPrefixAt(s, |FullEntityWord| + |Separator|, CreatingWord)
      && IsPrefixAt(s, j, w) && s[j + |w|] == ' ' && s[j + |w| + 1] == 'C'
      && IsPrefixAt(s, j + |w| + 1, CardIdWord) && s[j + |w| + 1 + |CardIdWord|..] == id
  {
    var s := CreatingText(n, id);
    var w := IntToString(n);
    var j := |FullEntityWord| + |Separator| + |CreatingWord|;
    assert s == FullEntityWord + Separator + CreatingWord + w + " " + CardIdWord + id;
    SevenParts(FullEntityWord, Separator, CreatingWord, w, " ", CardIdWord, id);
    hide CreatingText, IntToString;
    CharOf(s, j + |w|, " ", 0);
    CharOf(s, j + |w| + 1, CardIdWord, 0);
    CharOf(s, 0, FullEntityWord, 0);
    NotPrefixByChar(s, 0, TagWord);
  }

  /** The partner of writing "FULL_ENTITY - Creating ID=N CardID=X": the line creates a fresh
      entity N with card id X, which replaces any entity the game had under that id, and opens
      a FULL_ENTITY block for it. */
  lemma CreatingLine(n: int, id: string, st: ParserState)
    requires Known(st) && id != [] && '\r' !in id
    ensures BodyAt(CreatingText(n, id), 0, st)
         == Parsed(true, st.(entities := st.entities[n := NewEntity(n).(hsId := id)], current := Some(n)),
                   |CreatingText(n, id)|)
  {
    hide CreatingText, IntToString, NatToString, ScanInt, IsPrefixAt, SkipSpaces, StringTo, CreateAt, CardIdAt, FullEntityAt, EventAt, BodyAt, TagAt;
    var s := CreatingText(n, id);
    var w := IntToString(n);
    var j := |FullEntityWord| + |Separator| + |CreatingWord|;
    var st0 := st.(current := Option.None);
    var e1 := st0.(entities := st0.entities[n := NewEntity(n)], current := Some(n));
    var fin := st.(entities := st.entities[n := NewEntity(n).(hsId := id)], current := Some(n));
    CreatingTextParts(n, id);
    ScanIntAt(s, j, n);
    CreateAtNumber(s, j, st0, n, j + |w|);
    CharOf(s, j + |w| + 1, CardIdWord, 0);
    CardIdTail(s, j + |w|, e1, id);
    assert e1.entities[n] == NewEntity(n);
    UpdateTwice(st.entities, n, NewEntity(n), NewEntity(n).(hsId := id));
    FullEntityCreating(s, |FullEntityWord|, st0, CreateAt(s, j, st0), fin);
    EventFullEntity(s, st0);
    BodyOutsideBlock(s, st);
  }

  /** The second of two writes to one key is the one that stays. */
  lemma UpdateTwice(m: map<int, Entity>, n: int, a: Entity, b: Entity)
    ensures m[n := a][n := b] == m[n := b]
  {
    assert m[n := a][n := b].Keys == m[n := b].Keys;
  }

  /** A number read after "Creating ID=" becomes a fresh current entity. */
  lemma CreateAtNumber(s: string, i: nat, st: ParserState, n: int, e: nat)
    requires i <= |s| && ScanInt(s, i) == Some((n, e))
    ensures CreateAt(s, i, st) == Parsed(true, st.(entities := st.entities[n := NewEntity(n)], current := Some(n)), e)
  {
    hide ScanInt;
  }

  /** A FULL_ENTITY line whose new entity and card id are read to the end of the line. */
  lemma FullEntityCreating(s: string, i: nat, st: ParserState, c: Parsed<ParserState>, fin: ParserState)
    requires i <= |s| && Known(st)
    requires IsPrefixAt(s, i, Separator) && IsPrefixAt(s, i + |Separator|, CreatingWord)
    requires c == CreateAt(s, i + |Separator| + |CreatingWord|, st) && c.ok
    requires CardIdAt(s, c.pos, c.value) == Parsed(true, fin, |s|)
    ensures FullEntityAt(s, i, st) == Parsed(true, fin, |s|)
  {
    hide CreateAt, CardIdAt, IntToString, ScanInt, SkipSpaces, StringTo, ExistingEntityAt;
    assert BlankTo(s, |s|) == Some(|s|);
  }

  /** A line that starts with FULL_ENTITY is read as one. */
  lemma EventFullEntity(s: string, st: ParserState)
    requires Known(st) && IsPrefixAt(s, 0, FullEntityWord)
    ensures EventAt(s, 0, st) == FullEntityAt(s, |FullEntityWord|, st)
  {
    hide FullEntityAt, TagChangeAt, RegisterAt;
  }

  /** Outside a FULL_ENTITY block, or on a line that is not a tag line, the body is an event
      with no current entity. */
  lemma BodyOutsideBlock(s: string, st: ParserState)
    requires Known(st) && !IsPrefixAt(s, 0, TagWord)
    ensures BodyAt(s, 0, st) == EventAt(s, 0, st.(current := Option.None))
  {
    hide EventAt, TagAt;
  }

  /** The partner of writing " CardID=X" up to the end of the line: X becomes the current
      entity's card id. */
  lemma CardIdTail(s: string, i: nat, st: ParserState, id: string)
    requires i < |s| && s[i] == ' ' && IsPrefixAt(s, i + 1, CardIdWord)
    requires s[i + 1 + |CardIdWord|..] == id && id != [] && '\r' !in id
    requires st.current.Some? && st.current.value in st.entities
    ensures CardIdAt(s, i, st)
         == Parsed(true, st.(entities := st.entities[st.current.value := st.entities[st.current.value].(hsId := id)]), |s|)
  {
    var j := i + 1;
    CharOf(s, j, CardIdWord, 0);
    assert SkipSpaces(s, j) == j;
    assert SkipSpaces(s, i) == j;
    StringToEnd(s, j + |CardIdWord|, '\r');
    assert s[j + |CardIdWord|..|s|] == id;
  }

  /** With no `d` after `i`, the text runs to the end of the line. */
  lemma {:induction false} StringToEnd(s: string, i: nat, d: char)
    requires i <= |s| && d !in s[i..]
    ensures StringTo(s, i, d) == |s|
    decreases |s| - i
  {
    if i < |s| {
      assert s[i] == s[i..][0];
      assert s[i + 1..] == s[i..][1..];
      StringToEnd(s, i + 1, d);
    }
  }

  /** A tag line while an entity is current keeps the block open. */
  lemma BlockContinues(s: string, i: nat, st: ParserState)
    requires i <= |s| && Known(st) && st.current.Some? && IsPrefixAt(s, i, TagWord)
    ensures BodyAt(s, i, st).value.current == st.current
  {
    hide TagAt, EventAt;
  }

  /** Any other line, except one that creates or updates an entity, ends the block. */
  lemma BlockEnds(s: string, i: nat, st: ParserState)
    requires i <= |s| && Known(st)
    requires !(st.current.Some? && IsPrefixAt(s, i, TagWord))
    requires !IsPrefixAt(s, i, FullEntityWord) && !IsPrefixAt(s, i, ShowEntityWord)
    requires !IsPrefixAt(s, i, PlayerWord) && !IsPrefixAt(s, i, GameEntityWord)
    ensures BodyAt(s, i, st).value.current.None?
  {
    hide TagAt, FullEntityAt, RegisterAt, TagChangeAt;
  }

  /** The game state after a sequence of log lines, each parsed from its start; a line that
      fails is passed over with whatever it changed. */
  ghost function Replay(lines: seq<string>, st: ParserState): (r: ParserState)
    requires Known(st)
    ensures Known(r)
    decreases |lines|
  {
    if lines == [] then st
    else LineAt(lines[|lines| - 1], 0, Replay(lines[..|lines| - 1], st)).value
  }

  // ---------------------------------------------------------------------------
  // The parser

  /** `LogParser`: the game and the entity of the FULL_ENTITY block being read. */
  class LogParser {
    const game: HSGame
    var current: Option<int>

    function State(): ParserState
      reads this, game
    {
      ParserState(game.entities, game.players, game.gameEntity, game.inBattlegrounds, game.turn, current)
    }

    ghost predicate Valid()
      reads this, game
    {
      Known(State())
    }

    constructor()
      ensures Valid() && fresh(game)
      ensures State() == ParserState(map[], [], Option.None, false, 0, Option.None)
    {
      game := new HSGame();
      current := Option.None;
    }

    method ParseCreateEntity(p: StringParser) returns (ok: bool)
      requires p.Valid() && Valid()
      modifies p, this, game
      ensures p.Valid() && Valid()
      ensures CreateAt(p.text, old(p.pos), old(State())) == Parsed(ok, State(), p.pos)
    {
      var n;
      ok, n := p.ParseInt();
      if !ok {
        return;
      }
      game.entities := game.entities[n := NewEntity(n)];
      current := Some(n);
    }

    method ParseExistingEntity(p: StringParser) returns (found: Option<int>)
      requires p.Valid()
      modifies p
      ensures p.Valid()
      ensures ExistingEntityAt(p.text, old(p.pos), State()) == Parsed(found.Some?, found, p.pos)
    {
      var ok, id := ParseExistingEntityId(p);
      if !ok {
        ok, id := p.MatchInt();
      }
      if ok {
        found := if id in game.entities then Some(id) else Option.None;
        return;
      }
      var ge := p.ExactMatch(GameEntityName);
      if ge && game.gameEntity.Some? {
        return game.gameEntity;
      }
      var bob := p.ExactMatch(TavernName);
      var inn := false;
      if !bob {
        inn := p.ExactMatch(InnkeeperName);
      }
      if (bob || inn) && |game.players| >= 2 {
        return Some(game.players[1]);
      }
      found := Option.None;
    }

    /** The card id tail shared by the Creating and the Updating lines. */
    method ParseCardId(p: StringParser) returns (ok: bool)
      requires p.Valid() && Valid() && current.Some?
      modifies p, game`entities
      ensures p.Valid() && Valid()
      ensures CardIdAt(p.text, old(p.pos), old(State())) == Parsed(ok, State(), p.pos)
    {
      p.SkipWs();
      ok := p.ExactMatch(CardIdWord);
      if !ok {
        return;
      }
      var w;
      ok, w := ParseString(p, '\r');
      if !ok {
        return;
      }
      var c := current.value;
      game.entities := game.entities[c := game.entities[c].(hsId := w)];
    }

    method ParseFullEntity(p: StringParser) returns (ok: bool)
      requires p.Valid() && Valid()
      modifies p, this, game
      ensures p.Valid() && Valid()
      ensures FullEntityAt(p.text, old(p.pos), old(State())) == Parsed(ok, State(), p.pos)
    {
      hide CreateAt, CardIdAt, ExistingEntityAt;
      var _ := p.ExactMatch(Separator);
      var creating := p.ExactMatch(CreatingWord);
      if creating {
        ok := ParseCreateEntity(p);
        if !ok {
          return;
        }
        ok := ParseCardId(p);
        if !ok {
          return;
        }
        var _ := p.ParseEnd();
        return;
      }
      var updating := p.ExactMatch(UpdatingWord);
      if updating {
        var _ := p.ExactMatch(EntityWord);
        current := ParseExistingEntity(p);
        if current.None? {
          return false;
        }
        ok := ParseCardId(p);
        return;
      }
      ok := false;
    }

    /** `on_step`: "MAIN_READY", when it follows, is consumed; the boards built there are only
        printed. */
    method OnStep(p: StringParser)
      requires p.Valid()
      modifies p
      ensures p.Valid()
      ensures p.pos == old(p.pos) + if IsPrefixAt(p.text, old(p.pos), MainReady) then |MainReady| else 0
    {
      var _ := p.ExactMatch(MainReady);
    }

    method ParseGameEntityTagChange(p: StringParser) returns (ok: bool)
      requires p.Valid() && Valid()
      modifies p, game`inBattlegrounds, game`turn
      ensures p.Valid() && Valid()
      ensures GameTagAt(p.text, old(p.pos), old(State())) == Parsed(ok, State(), p.pos)
    {
      hide PrefixMatch, MatchPos;
      var step := p.ExactMatch(StepWord);
      if step {
        ok := p.ExactMatch(ValueWord);
        if ok {
          OnStep(p);
        }
        return;
      }
      var next := p.ExactMatch(NextStepWord);
      if next {
        return true;
      }
      var state := p.ExactMatch(StateWord);
      if state {
        ok := p.ExactMatch(ValueWord);
        if !ok {
          return;
        }
        var running := p.Match(Running);
        if running {
          return true;
        }
        var complete := p.Match(Complete);
        if complete {
          game.inBattlegrounds := false;
        }
        return true;
      }
      var turn := p.ExactMatch(TurnWord);
      if turn {
        var n;
        ok, n := p.ParseInt();
        if ok {
          game.turn := n;
        }
        return;
      }
      ok := false;
    }

    method ParseTagChange(p: StringParser) returns (ok: bool)
      requires p.Valid() && Valid()
      modifies p, game`entities, game`inBattlegrounds, game`turn
      ensures p.Valid() && Valid()
      ensures TagChangeAt(p.text, old(p.pos), old(State())) == Parsed(ok, State(), p.pos)
    {
      hide ExistingEntityAt, GameTagAt, TagAt;
      ok := p.ExactMatch(EntityRefWord);
      if !ok {
        return;
      }
      var entity := ParseExistingEntity(p);
      if entity.None? {
        return false;
      }
      p.SkipWs();
      ok := p.ExactMatch(TagWord);
      if !ok {
        return;
      }
      if entity == game.gameEntity {
        ok := ParseGameEntityTagChange(p);
      } else {
        ok := ParseTagAndValue(p, game, entity.value);
      }
    }

    method ParseBody(p: StringParser) returns (ok: bool)
      requires p.Valid() && Valid()
      modifies p, this, game
      ensures p.Valid() && Valid()
      ensures BodyAt(p.text, old(p.pos), old(State())) == Parsed(ok, State(), p.pos)
    {
      hide TagAt, EventAt;
      if current.Some? {
        var tag := p.ExactMatch(TagWord);
        if tag {
          ok := ParseTagAndValue(p, game, current.value);
          return;
        }
      }
      current := Option.None;
      ok := ParseEvent(p);
    }

    method ParseEvent(p: StringParser) returns (ok: bool)
      requires p.Valid() && Valid()
      modifies p, this, game
      ensures p.Valid() && Valid()
      ensures EventAt(p.text, old(p.pos), old(State())) == Parsed(ok, State(), p.pos)
    {
      hide FullEntityAt, TagChangeAt, OutlineAt;
      var full := p.ExactMatch(FullEntityWord);
      if !full {
        full := p.ExactMatch(ShowEntityWord);
      }
      if full {
        ok := ParseFullEntity(p);
        return;
      }
      var change := p.ExactMatch(TagChangeWord);
      if change {
        ok := ParseTagChange(p);
        return;
      }
      ok := ParseOutline(p);
    }

    method ParseOutline(p: StringParser) returns (ok: bool)
      requires p.Valid() && Valid()
      modifies p, this, game
      ensures p.Valid() && Valid()
      ensures OutlineAt(p.text, old(p.pos), old(State())) == Parsed(ok, State(), p.pos)
    {
      hide RegisterAt;
      var blockStart := p.ExactMatch(BlockStartWord);
      if blockStart {
        ok := p.ExactMatch(BlockTypeWord);
        return;
      }
      var blockEnd := p.ExactMatch(BlockEndWord);
      if blockEnd {
        return true;
      }
      var create := p.ExactMatch(CreateGameWord);
      if create {
        game.Clear();
        current := Option.None;
        return true;
      }
      var player := p.ExactMatch(PlayerWord);
      if player {
        ok := ParseRegister(p, true);
        return;
      }
      var gameEntity := p.ExactMatch(GameEntityWord);
      if gameEntity {
        ok := ParseRegister(p, false);
        return;
      }
      ok := false;
    }

    method ParseRegister(p: StringParser, player: bool) returns (ok: bool)
      requires p.Valid() && Valid()
      modifies p, this, game
      ensures p.Valid() && Valid()
      ensures RegisterAt(p.text, old(p.pos), old(State()), player) == Parsed(ok, State(), p.pos)
    {
      ok := ParseCreateEntity(p);
      if ok {
        if player {
          game.players := game.players + [current.value];
        } else {
          game.gameEntity := current;
        }
      }
    }

    method ParseGameLine(p: StringParser) returns (ok: bool)
      requires p.Valid() && Valid()
      modifies p, game`inBattlegrounds
      ensures p.Valid() && Valid()
      ensures GameLineAt(p.text, old(p.pos), old(State())) == Parsed(ok, State(), p.pos)
    {
      var gameType := p.ExactMatch(GameTypeWord);
      if gameType {
        game.inBattlegrounds := p.ExactMatch(Battlegrounds);
        return true;
      }
      var playerId := p.ExactMatch(PlayerIdWord);
      if playerId {
        var n;
        ok, n := p.ParseInt();
        if !ok {
          return;
        }
        ok := p.ExactMatch(PlayerNameWord);
        return;
      }
      ok := false;
    }

    /** `parse`: the lines of a log in turn, whatever each line's outcome. */
    method Parse(lines: seq<CStr>)
      requires Valid()
      modifies this, game
      ensures Valid() && State() == Replay(lines, old(State()))
    {
      for n := 0 to |lines|
        invariant Valid() && State() == Replay(lines[..n], old(State()))
      {
        assert lines[..n + 1][..n] == lines[..n];
        var p := new StringParser(lines[n]);
        var _ := ParsePowerLogLine(p);
      }
      assert lines[..|lines|] == lines;
    }

    /** `parse_power_log_line`. */
    method ParsePowerLogLine(p: StringParser) returns (ok: bool)
      requires p.Valid() && Valid()
      modifies p, this, game
      ensures p.Valid() && Valid()
      ensures LineAt(p.text, old(p.pos), old(State())) == Parsed(ok, State(), p.pos)
    {
      hide KindAt, PrefixMatch, MatchPos, StringTo, SkipSpaces;
      ok := p.Match(DebugLevel);
      if !ok {
        return;
      }
      p.SkipWs();
      var _, _ := ParseString(p, ' ');
      p.SkipWs();
      ok := ParseKind(p);
    }

    method ParseKind(p: StringParser) returns (ok: bool)
      requires p.Valid() && Valid()
      modifies p, this, game
      ensures p.Valid() && Valid()
      ensures KindAt(p.text, old(p.pos), old(State())) == Parsed(ok, State(), p.pos)
    {
      hide SectionAt;
      var power := p.ExactMatch(PowerLine);
      if power {
        ok := ParseSection(p, true);
        return;
      }
      var gameLine := p.ExactMatch(GameLine);
      if gameLine {
        ok := ParseSection(p, false);
        return;
      }
      ok := true;
    }

    method ParseSection(p: StringParser, power: bool) returns (ok: bool)
      requires p.Valid() && Valid()
      modifies p, this, game
      ensures p.Valid() && Valid()
      ensures SectionAt(p.text, old(p.pos), old(State()), power) == Parsed(ok, State(), p.pos)
    {
      hide BodyAt, GameLineAt, Find, SkipSpaces;
      ok := SkipUntil(p, Dash);
      if !ok {
        return;
      }
      p.SkipWs();
      if power {
        ok := ParseBody(p);
      } else {
        ok := ParseGameLine(p);
      }
    }
  }
}
