// src/board_parser.hpp: the board files. Each line is one command for the board being read; a
// line starting with `=` closes that board. The board under construction is a `Board` updated in
// place; a board that is stored is a copy, so it is kept as a value.
module BoardParser {
  import opened Util
  import opened MinionInfo
  import opened Minions
  import opened MinionArrays
  import opened Boards
  import opened Parser

  /** What a board line can set on a board: its slots, hero, level and health. */
  datatype BoardState = BoardState(slots: seq<Minion>, hero: nat, level: int, health: int)

  /** A stored `BoardWithLabel`: a copy of the board, its turn and its label. */
  datatype LabelledBoard = LabelledBoard(board: BoardState, turn: int, labelText: string)

  /** `BoardWithLabel()`: an empty board, turn -1, no label. */
  function FreshBoard(): LabelledBoard {
    LabelledBoard(BoardState(seq(BoardSize, _ => Empty()), 0, 0, 0), -1, "")
  }

  // ---------------------------------------------------------------------------
  // operator<

  /** The total stats of a stored board, as `total_stats()` counts them. */
  function TotalStatsOf(b: LabelledBoard): int {
    StatsOf(Live(b.board.slots))
  }

  /** `operator<`: by turn, then by total stats. */
  predicate Less(a: LabelledBoard, b: LabelledBoard) {
    a.turn < b.turn || (a.turn == b.turn && TotalStatsOf(a) < TotalStatsOf(b))
  }

  /** `operator<` is a strict weak order, as `std::sort` needs: irreflexive and transitive, and
      two boards are unordered exactly when they share turn and total stats, which is itself
      transitive. */
  lemma LessIsStrictWeakOrder(a: LabelledBoard, b: LabelledBoard, c: LabelledBoard)
    ensures !Less(a, a)
    ensures Less(a, b) && Less(b, c) ==> Less(a, c)
    ensures (!Less(a, b) && !Less(b, a)) <==> (a.turn == b.turn && TotalStatsOf(a) == TotalStatsOf(b))
    ensures !Less(a, b) && !Less(b, a) && !Less(b, c) && !Less(c, b) ==> !Less(a, c) && !Less(c, a)
  {
  }

  // ---------------------------------------------------------------------------
  // The lines of a board definition, on values

  /** `* minion`: the minion, when it parses and the line ends after it, and the position
      reached. */
  ghost function MinionLineAt(c: Catalog, s: string, k: nat): (r: (Option<Minion>, nat))
    requires k <= |s|
    ensures r.1 <= |s|
  {
    var m := MinionAt(c, s, k, Empty());
    if !m.ok then (Option.None, m.pos)
    else match BlankTo(s, m.pos)
      case None => (Option.None, m.pos)
      case Some(e) => (Some(m.value), e)
  }

  /** `hp [:] hero` or `hero-power [:] hero`, after the keyword: the hero's index, when the
      name matches and the line ends after it. */
  ghost function HeroLineAt(c: Catalog, s: string, k: nat): (r: (Option<nat>, nat))
    requires k <= |s|
    ensures r.1 <= |s|
    ensures r.0.Some? ==> r.0.value < |c.heroes|
  {
    var k2 := MatchPos(s, k, ":");
    match FirstMatch(s, k2, HeroNames(c), 0)
    case None => (Option.None, k2)
    case Some(h) =>
      var e := MatchPos(s, k2, HeroNames(c)[h]);
      match BlankTo(s, e)
      case None => (Option.None, e)
      case Some(e2) => (Some(h), e2)
  }

  /** `level [:] n` or `health [:] n`, after the keyword: the number, when it is not negative
      and the line ends after it. */
  function NumberLineAt(s: string, k: nat, colon: nat): (r: (Option<int>, nat))
    requires k <= colon <= |s|
    ensures r.1 <= |s|
    ensures r.0.Some? ==> r.0.value >= 0
  {
    match ScanInt(s, colon)
    case None => (Option.None, colon)
    case Some((n, e)) =>
      if n < 0 then (Option.None, colon)
      else match BlankTo(s, e)
        case None => (Option.None, e)
        case Some(e2) => (Some(n), e2)
  }

  /** `parse_board_definition`: whether the line was a board command, the board after it and
      where the cursor stops. Commands whose argument fails leave the board as it was but still
      count as handled; a line that is no command leaves everything. */
  ghost function DefinitionAt(c: Catalog, s: string, i: nat, b: BoardState): (r: Parsed<BoardState>)
    requires i <= |s|
    ensures r.pos <= |s|
    ensures !r.ok ==> r.value == b && r.pos == i
    ensures |r.value.slots| == |b.slots|
  {
    if BlankTo(s, i).Some? then Parsed(true, b, BlankTo(s, i).value)
    else if PrefixMatch(s, i, "*").Some? then
      var r := MinionLineAt(c, s, MatchPos(s, i, "*"));
      Parsed(true, if r.0.Some? then b.(slots := Appended(b.slots, r.0.value)) else b, r.1)
    else SettingAt(c, s, i, b)
  }

  /** The commands of `parse_board_definition` after `*`: `board`, the hero, the level and the
      health. */
  ghost function SettingAt(c: Catalog, s: string, i: nat, b: BoardState): (r: Parsed<BoardState>)
    requires i <= |s|
    ensures r.pos <= |s|
    ensures !r.ok ==> r.value == b && r.pos == i
    ensures r.value.slots == b.slots
  {
    if PrefixMatch(s, i, "board").Some? then Parsed(true, b, MatchPos(s, i, "board"))
    else if PrefixMatch(s, i, "hp").Some? || PrefixMatch(s, i, "hero-power").Some? then
      var k := if PrefixMatch(s, i, "hp").Some? then MatchPos(s, i, "hp") else MatchPos(s, i, "hero-power");
      var r := HeroLineAt(c, s, k);
      Parsed(true, if r.0.Some? then b.(hero := r.0.value) else b, r.1)
    else if PrefixMatch(s, i, "level").Some? then
      var k := MatchPos(s, i, "level");
      var r := NumberLineAt(s, k, MatchPos(s, k, ":"));
      Parsed(true, if r.0.Some? then b.(level := r.0.value) else b, r.1)
    else if PrefixMatch(s, i, "health").Some? then
      var k := MatchPos(s, i, "health");
      var r := NumberLineAt(s, k, MatchPos(s, k, ":"));
      Parsed(true, if r.0.Some? then b.(health := r.0.value) else b, r.1)
    else Parsed(false, b, i)
  }

  /** `parse_board_with_label`: `turn [:] n` sets the turn and takes the rest of the line,
      after white space, as the label; a bad number leaves both but the line still counts as
      handled. Any other line is a board definition. */
  ghost function LabelledLineAt(c: Catalog, s: string, i: nat, b: LabelledBoard): (r: Parsed<LabelledBoard>)
    requires i <= |s|
    ensures r.pos <= |s|
    ensures !r.ok ==> r.value == b && r.pos == i
  {
    if PrefixMatch(s, i, "turn").Some? then
      var k := MatchPos(s, i, "turn");
      var k2 := MatchPos(s, k, ":");
      match ScanInt(s, k2)
      case Some((n, e)) =>
        if n >= 0 then
          var e2 := SkipSpaces(s, e);
          Parsed(true, b.(turn := n, labelText := s[e2..]), e2)
        else Parsed(true, b, k2)
      case None => Parsed(true, b, k2)
    else
      var r := DefinitionAt(c, s, i, b.board);
      Parsed(r.ok, b.(board := r.value), r.pos)
  }

  // ---------------------------------------------------------------------------
  // The line loop of load_boards

  /** The boards stored by reading `lines`, after `acc`, with `cur` the board being read: a line
      that is no command and starts with `=` stores `cur` when its turn is positive and starts a
      fresh board. The board being read when the lines run out is not stored. */
  ghost function Loaded(c: Catalog, lines: seq<string>, cur: LabelledBoard, acc: seq<LabelledBoard>)
    : (r: seq<LabelledBoard>)
    decreases |lines|
  {
    if lines == [] then acc
    else
      var r := LabelledLineAt(c, lines[0], 0, cur);
      if !r.ok && At(lines[0], 0) == '=' then
        Loaded(c, lines[1..], FreshBoard(), if cur.turn > 0 then acc + [cur] else acc)
      else Loaded(c, lines[1..], r.value, acc)
  }

  /** Stored boards are kept, in order: the boards before are a prefix of the result. */
  lemma {:induction false} LoadedExtends(c: Catalog, lines: seq<string>, cur: LabelledBoard, acc: seq<LabelledBoard>)
    ensures |Loaded(c, lines, cur, acc)| >= |acc| && Loaded(c, lines, cur, acc)[..|acc|] == acc
    decreases |lines|
  {
    if lines != [] {
      var r := LabelledLineAt(c, lines[0], 0, cur);
      if !r.ok && At(lines[0], 0) == '=' {
        var acc' := if cur.turn > 0 then acc + [cur] else acc;
        LoadedExtends(c, lines[1..], FreshBoard(), acc');
        assert acc'[..|acc|] == acc;
      } else {
        LoadedExtends(c, lines[1..], r.value, acc);
      }
    }
  }

  predicate TurnsPositive(boards: seq<LabelledBoard>) {
    forall k :: 0 <= k < |boards| ==> boards[k].turn > 0
  }

  /** Every stored board has a positive turn. */
  lemma {:induction false} LoadedTurnsPositive(c: Catalog, lines: seq<string>, cur: LabelledBoard, acc: seq<LabelledBoard>)
    requires TurnsPositive(acc)
    ensures TurnsPositive(Loaded(c, lines, cur, acc))
    decreases |lines|
  {
    if lines != [] {
      var r := LabelledLineAt(c, lines[0], 0, cur);
      if !r.ok && At(lines[0], 0) == '=' {
        var acc' := if cur.turn > 0 then acc + [cur] else acc;
        assert TurnsPositive(acc');
        LoadedTurnsPositive(c, lines[1..], FreshBoard(), acc');
      } else {
        assert Loaded(c, lines, cur, acc) == Loaded(c, lines[1..], r.value, acc);
        LoadedTurnsPositive(c, lines[1..], r.value, acc);
      }
    }
  }

  /** A file without a separator line stores nothing: its last board is dropped. */
  lemma {:induction false} LoadedNeedsSeparator(c: Catalog, lines: seq<string>, cur: LabelledBoard, acc: seq<LabelledBoard>)
    requires forall k :: 0 <= k < |lines| ==> At(lines[k], 0) != '='
    ensures Loaded(c, lines, cur, acc) == acc
    decreases |lines|
  {
    if lines != [] {
      LoadedNeedsSeparator(c, lines[1..], LabelledLineAt(c, lines[0], 0, cur).value, acc);
    }
  }

  // ---------------------------------------------------------------------------
  // The parsers, in place

  /** The board being read, with its turn and label. */
  class BoardWithLabel {
    const board: Board
    var turn: int
    var labelText: string

    ghost predicate Valid()
      reads this, board
    {
      board.Valid()
    }

    constructor()
      ensures Valid() && fresh(board) && fresh(board.base) && fresh(board.base.minions)
      ensures Snapshot() == FreshBoard()
    {
      board := new Board();
      turn := -1;
      labelText := "";
    }

    /** The copy `boards.push_back(board)` stores. */
    function Snapshot(): LabelledBoard
      reads this, board, board.base.minions
    {
      LabelledBoard(BoardState(board.Slots(), board.hero, board.level, board.health), turn, labelText)
    }
  }

  /** The state of a board that the board lines can change. */
  function StateOf(b: Board): BoardState
    reads b, b.base.minions
  {
    BoardState(b.Slots(), b.hero, b.level, b.health)
  }

  /** `* minion` after the star. */
  method ParseMinionLine(p: StringParser, c: Catalog) returns (m: Option<Minion>)
    requires p.Valid() && CNames(MinionNames(c))
    modifies p
    ensures p.Valid() && MinionLineAt(c, p.text, old(p.pos)) == (m, p.pos)
  {
    hide MinionAt;
    var ok, x := ParseMinion(p, c, Empty());
    if ok {
      ok := p.ParseEnd();
    }
    m := if ok then Some(x) else Option.None;
  }

  /** `hp [:] hero` after the keyword; the hero lookup is `parse_hero_type` over the hero
      table. */
  method ParseHeroLine(p: StringParser, c: Catalog) returns (h: Option<nat>)
    requires p.Valid() && CNames(HeroNames(c))
    modifies p
    ensures p.Valid() && HeroLineAt(c, p.text, old(p.pos)) == (h, p.pos)
  {
    hide PrefixMatch, FirstMatch;
    var _ := p.Match(":");
    var r := MatchFirst(p, HeroNames(c));
    if r.None? {
      return Option.None;
    }
    var ok := p.ParseEnd();
    h := if ok then r else Option.None;
  }

  /** `level [:] n` or `health [:] n` after the keyword. */
  method ParseNumberLine(p: StringParser) returns (n: Option<int>)
    requires p.Valid()
    modifies p
    ensures p.Valid() && NumberLineAt(p.text, old(p.pos), MatchPos(p.text, old(p.pos), ":")) == (n, p.pos)
  {
    hide PrefixMatch, ScanInt;
    var _ := p.Match(":");
    var ok, x := p.ParseNonNegative();
    if ok {
      ok := p.ParseEnd();
    }
    n := if ok then Some(x) else Option.None;
  }

  /** `parse_board_definition(in, board)`. */
  method ParseBoardDefinition(p: StringParser, board: Board, c: Catalog) returns (handled: bool)
    requires p.Valid() && board.Valid() && CNames(MinionNames(c)) && CNames(HeroNames(c))
    modifies p, board, board.base.minions
    ensures p.Valid() && board.Valid()
    ensures DefinitionAt(c, p.text, old(p.pos), old(StateOf(board))) == Parsed(handled, StateOf(board), p.pos)
    ensures board.nextAttacker == old(board.nextAttacker) && board.heroPower == old(board.heroPower)
  {
    hide PrefixMatch, MinionLineAt, SettingAt, BlankTo, MatchPos;
    handled := true;
    var ok := p.MatchEnd();
    if ok {
      return;
    }
    ok := p.Match("*");
    if ok {
      ghost var k := p.pos;
      var m := ParseMinionLine(p, c);
      assert MinionLineAt(c, p.text, k) == (m, p.pos);
      if m.Some? {
        var _ := board.base.Append(m.value);
      }
      return;
    }
    handled := ParseSetting(p, board, c);
  }

  /** The `board`, hero, level and health commands of `parse_board_definition`. */
  method ParseSetting(p: StringParser, board: Board, c: Catalog) returns (handled: bool)
    requires p.Valid() && board.Valid() && CNames(HeroNames(c))
    modifies p, board
    ensures p.Valid() && board.Valid()
    ensures SettingAt(c, p.text, old(p.pos), old(StateOf(board))) == Parsed(handled, StateOf(board), p.pos)
    ensures board.nextAttacker == old(board.nextAttacker) && board.heroPower == old(board.heroPower)
  {
    hide PrefixMatch, HeroLineAt, NumberLineAt, BlankTo, MatchPos;
    handled := true;
    var ok := p.Match("board");
    if ok {
      return;
    }
    ok := p.Match("hp");
    if !ok {
      ok := p.Match("hero-power");
    }
    if ok {
      var h := ParseHeroLine(p, c);
      if h.Some? {
        board.hero := h.value;
      }
      return;
    }
    ok := p.Match("level");
    if ok {
      var n := ParseNumberLine(p);
      if n.Some? {
        board.level := n.value;
      }
      return;
    }
    ok := p.Match("health");
    if ok {
      var n := ParseNumberLine(p);
      if n.Some? {
        board.health := n.value;
      }
      return;
    }
    handled := false;
  }

  /** `parse_board_with_label(in, board)`. */
  method ParseBoardWithLabel(p: StringParser, b: BoardWithLabel, c: Catalog) returns (handled: bool)
    requires p.Valid() && b.Valid() && CNames(MinionNames(c)) && CNames(HeroNames(c))
    modifies p, b, b.board, b.board.base.minions
    ensures p.Valid() && b.Valid()
    ensures LabelledLineAt(c, p.text, old(p.pos), old(b.Snapshot())) == Parsed(handled, b.Snapshot(), p.pos)
  {
    hide PrefixMatch, DefinitionAt, ScanInt, MatchPos;
    var turn := p.Match("turn");
    if turn {
      var _ := p.Match(":");
      var ok, n := p.ParseNonNegative();
      if ok {
        p.SkipWs();
        b.labelText := p.text[p.pos..];
        b.turn := n;
      }
      return true;
    }
    handled := ParseBoardDefinition(p, b.board, c);
  }

  /** The loop of `load_boards(lines, filename, boards)` over the lines of one file, appending
      to `boards`. */
  method LoadBoards(lines: seq<CStr>, c: Catalog, boards0: seq<LabelledBoard>) returns (boards: seq<LabelledBoard>)
    requires CNames(MinionNames(c)) && CNames(HeroNames(c))
    ensures boards == Loaded(c, lines, FreshBoard(), boards0)
  {
    hide LabelledLineAt;
    boards := boards0;
    var cur := new BoardWithLabel();
    var k := 0;
    while k < |lines|
      invariant k <= |lines| && cur.Valid()
      invariant fresh(cur) && fresh(cur.board) && fresh(cur.board.base.minions)
      invariant Loaded(c, lines[k..], cur.Snapshot(), boards) == Loaded(c, lines, FreshBoard(), boards0)
    {
      assert lines[k..][1..] == lines[k + 1..];
      var p := new StringParser(lines[k]);
      var handled := ParseBoardWithLabel(p, cur, c);
      if !handled && p.Peek() == '=' {
        if cur.turn > 0 {
          boards := boards + [cur.Snapshot()];
        }
        cur := new BoardWithLabel();
      }
      k := k + 1;
    }
  }

  // ---------------------------------------------------------------------------
  // load_boards over the files, then std::sort

  /** Places `x` before the first board that is not below it. */
  function InsertBoard(x: LabelledBoard, s: seq<LabelledBoard>): (r: seq<LabelledBoard>)
    ensures multiset(r) == multiset(s) + multiset{x}
    decreases |s|
  {
    if s == [] || !Less(s[0], x) then [x] + s
    else
      assert s == [s[0]] + s[1..];
      [s[0]] + InsertBoard(x, s[1..])
  }

  /** `std::sort(boards.begin(), boards.end())`, as an insertion sort by `operator<`. */
  function SortBoards(s: seq<LabelledBoard>): (r: seq<LabelledBoard>)
    ensures multiset(r) == multiset(s)
    decreases |s|
  {
    if s == [] then []
    else
      assert s == [s[0]] + s[1..];
      InsertBoard(s[0], SortBoards(s[1..]))
  }

  /** No board is below an earlier one. */
  ghost predicate SortedBoards(s: seq<LabelledBoard>) {
    forall i, j :: 0 <= i < j < |s| ==> !Less(s[j], s[i])
  }

  lemma {:induction false} InsertBoardSorted(x: LabelledBoard, s: seq<LabelledBoard>)
    requires SortedBoards(s)
    ensures SortedBoards(InsertBoard(x, s))
    decreases |s|
  {
    var r := InsertBoard(x, s);
    if s == [] {
    } else if !Less(s[0], x) {
      forall j | 1 <= j < |r|
        ensures !Less(r[j], x)
      {
        assert r[j] == s[j - 1];
        LessIsStrictWeakOrder(r[j], s[0], x);
      }
    } else {
      var t := InsertBoard(x, s[1..]);
      InsertBoardSorted(x, s[1..]);
      forall j | 0 <= j < |t|
        ensures !Less(t[j], s[0])
      {
        assert t[j] in multiset(t);
        if t[j] != x {
          assert t[j] in multiset(s[1..]);
          var k :| 0 <= k < |s[1..]| && s[1..][k] == t[j];
          assert s[k + 1] == t[j];
        }
      }
      assert r == [s[0]] + t;
    }
  }

  /** `std::sort` leaves the boards ordered by turn and then by total stats, and keeps every
      board: the result is a sorted permutation. */
  lemma {:induction false} SortBoardsSorted(s: seq<LabelledBoard>)
    ensures SortedBoards(SortBoards(s)) && multiset(SortBoards(s)) == multiset(s)
    decreases |s|
  {
    if s != [] {
      SortBoardsSorted(s[1..]);
      InsertBoardSorted(s[0], SortBoards(s[1..]));
    }
  }

  /** The boards stored by reading the files in turn after `acc`, and whether every file
      opened; a file that does not open (`None`) stops the loop. */
  ghost function LoadedFiles(c: Catalog, files: seq<Option<seq<string>>>, acc: seq<LabelledBoard>)
    : (r: (bool, seq<LabelledBoard>))
    decreases |files|
  {
    if files == [] then (true, acc)
    else match files[0]
      case None => (false, acc)
      case Some(lines) => LoadedFiles(c, files[1..], Loaded(c, lines, FreshBoard(), acc))
  }

  /** The loop succeeds exactly when every file opens. */
  lemma {:induction false} LoadedFilesOpen(c: Catalog, files: seq<Option<seq<string>>>, acc: seq<LabelledBoard>)
    ensures LoadedFiles(c, files, acc).0 <==> forall k :: 0 <= k < |files| ==> files[k].Some?
    decreases |files|
  {
    if files != [] && files[0].Some? {
      LoadedFilesOpen(c, files[1..], Loaded(c, files[0].value, FreshBoard(), acc));
      assert forall k :: 1 <= k < |files| ==> files[k] == files[1..][k - 1];
    }
  }

  /** `load_boards(argc, argv, boards)`: the files in order (`None` for one that does not
      open), each read by the line loop; on success the boards are sorted. A file that does
      not open returns `false` with the boards read so far left unsorted. */
  method LoadBoardFiles(files: seq<Option<seq<CStr>>>, c: Catalog, boards0: seq<LabelledBoard>)
    returns (ok: bool, boards: seq<LabelledBoard>)
    requires CNames(MinionNames(c)) && CNames(HeroNames(c))
    ensures var x := LoadedFiles(c, files, boards0);
      ok == x.0 && boards == if ok then SortBoards(x.1) else x.1
  {
    boards := boards0;
    var k := 0;
    while k < |files|
      invariant k <= |files|
      invariant LoadedFiles(c, files[k..], boards) == LoadedFiles(c, files, boards0)
    {
      assert files[k..][1..] == files[k + 1..];
      match files[k]
      case None =>
        return false, boards;
      case Some(lines) =>
        boards := LoadBoards(lines, c, boards);
      k := k + 1;
    }
    boards := SortBoards(boards);
    return true, boards;
  }
}
