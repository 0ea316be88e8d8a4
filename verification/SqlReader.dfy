/**
 How an engine reads a statement whose values stand in place: the table, the columns and
 what each is given, the joins, the ordering and the paging. Nothing here knows how
 statements are built.
 */
module SqlReader {
  import opened Results
  import opened SqlText

  // ----- Lists -----

  /** Ends an item of a list: a comma, the closing parenthesis, the next clause. */
  predicate Stops(t: Token) {
    t.Comma? || t.RParen? || t.Word?
  }

  function ItemEnd(ts: seq<Token>): (n: nat)
    ensures n <= |ts| && (n < |ts| ==> Stops(ts[n]))
  {
    if ts == [] || Stops(ts[0]) then 0 else 1 + ItemEnd(ts[1..])
  }

  /** The items up to where the list ends, and what comes after it. */
  function Items(ts: seq<Token>): (seq<seq<Token>>, seq<Token>)
    decreases |ts|
  {
    var n := ItemEnd(ts);
    if n < |ts| && ts[n].Comma? then
      var (more, rest) := Items(ts[n + 1..]);
      ([ts[..n]] + more, rest)
    else ([ts[..n]], ts[n..])
  }

  function ListAt(ts: seq<Token>): (seq<seq<Token>>, seq<Token>) {
    if ts == [] || Stops(ts[0]) then ([], ts) else Items(ts)
  }

  /** "( ... )" */
  function Parenthesised(ts: seq<Token>): Option<(seq<seq<Token>>, seq<Token>)> {
    if ts == [] || !ts[0].LParen? then None
    else
      var (items, rest) := ListAt(ts[1..]);
      if rest != [] && rest[0].RParen? then Some((items, rest[1..])) else None
  }

  /** "( ... ), ( ... )" */
  function Tuples(ts: seq<Token>): Option<(seq<seq<seq<Token>>>, seq<Token>)>
    decreases |ts|
  {
    match Parenthesised(ts)
    case None => None
    case Some((items, rest)) =>
      if |rest| < |ts| && rest != [] && rest[0].Comma? then
        match Tuples(rest[1..])
        case None => None
        case Some((more, after)) => Some(([items] + more, after))
      else Some(([items], rest))
  }

  function NameIn(item: seq<Token>): string {
    if |item| == 1 && item[0].Name? then item[0].id else ""
  }

  function NamesIn(items: seq<seq<Token>>): (r: seq<string>)
    ensures |r| == |items|
  {
    seq(|items|, i requires 0 <= i < |items| => NameIn(items[i]))
  }

  /** What one column is given. */
  datatype Given = Given(column: string, value: seq<Token>)

  function GivenIn(item: seq<Token>): Given {
    if |item| >= 2 && item[0].Name? && item[1] == Sym(Eq) then Given(item[0].id, item[2..]) else Given("", item)
  }

  /** "a = x, b = y" */
  function SetsAt(ts: seq<Token>): (seq<Given>, seq<Token>) {
    var (items, rest) := ListAt(ts);
    (seq(|items|, i requires 0 <= i < |items| => GivenIn(items[i])), rest)
  }

  // ----- INSERT -----

  datatype OnConflict =
    | Fails
    | Nothing(target: Option<seq<string>>)
    | Updates(target: Option<seq<string>>, sets: seq<Given>)

  datatype InsertMeaning = InsertMeaning(
    table: string,
    columns: seq<string>,
    tuples: seq<seq<seq<Token>>>,
    onConflict: OnConflict,
    returning: seq<seq<Token>>
  )

  /** The row an engine inserts: each column named with the value in its place. */
  function RowOf(columns: seq<string>, values: seq<seq<Token>>): map<string, seq<Token>>
    requires |columns| == |values|
  {
    if columns == [] then map[] else RowOf(columns[1..], values[1..])[columns[0] := values[0]]
  }

  function ConflictAt(ignore: bool, ts: seq<Token>): Option<(OnConflict, seq<Token>)> {
    if ts != [] && ts[0] == Word("ON CONFLICT") then
      match Parenthesised(ts[1..])
      case None => None
      case Some((items, rest)) =>
        if rest != [] && rest[0] == Word("DO NOTHING") then Some((Nothing(Some(NamesIn(items))), rest[1..]))
        else if rest != [] && rest[0] == Word("DO UPDATE SET") then
          var (sets, after) := SetsAt(rest[1..]);
          Some((Updates(Some(NamesIn(items)), sets), after))
        else None
    else if ts != [] && ts[0] == Word("ON DUPLICATE KEY UPDATE") then
      var (sets, after) := SetsAt(ts[1..]);
      Some((Updates(None, sets), after))
    else Some((if ignore then Nothing(None) else Fails, ts))
  }

  function ReturningAt(ts: seq<Token>): seq<seq<Token>> {
    if ts != [] && ts[0] == Word("RETURNING") then ListAt(ts[1..]).0 else []
  }

  /** From VALUES on. */
  function ValuesAt(ignore: bool, table: string, columns: seq<string>, ts: seq<Token>): Option<InsertMeaning> {
    if ts == [] || ts[0] != Word("VALUES") then None
    else
      match Tuples(ts[1..])
      case None => None
      case Some((tuples, afterRows)) =>
        match ConflictAt(ignore, afterRows)
        case None => None
        case Some((onConflict, rest)) => Some(InsertMeaning(table, columns, tuples, onConflict, ReturningAt(rest)))
  }

  function ReadInsert(ts: seq<Token>): Option<InsertMeaning> {
    if |ts| < 2 || (ts[0] != Word("INSERT INTO") && ts[0] != Word("INSERT IGNORE INTO")) || !ts[1].Name? then None
    else
      match Parenthesised(ts[2..])
      case None => None
      case Some((names, rest)) => ValuesAt(ts[0] == Word("INSERT IGNORE INTO"), ts[1].id, NamesIn(names), rest)
  }

  // ----- Tables, UPDATE, DELETE and SELECT -----

  /** A table and the name it goes by. */
  function TableAt(ts: seq<Token>): Option<(Table, seq<Token>)> {
    if ts == [] || !ts[0].Name? then None
    else if |ts| >= 3 && ts[1] == Word("AS") && ts[2].Name? then Some((Table(ts[0].id, ts[2].id), ts[3..]))
    else Some((Table(ts[0].id, ""), ts[1..]))
  }

  function ReadUpdate(ts: seq<Token>): Option<(Table, seq<Given>)> {
    if ts == [] || ts[0] != Word("UPDATE") then None
    else
      match TableAt(ts[1..])
      case None => None
      case Some((table, rest)) =>
        if rest != [] && rest[0] == Word("SET") then Some((table, SetsAt(rest[1..]).0)) else None
  }

  function ReadDelete(ts: seq<Token>): Option<Table> {
    if ts == [] || ts[0] != Word("DELETE FROM") then None
    else match TableAt(ts[1..]) case None => None case Some((table, _)) => Some(table)
  }

  datatype SelectStart = SelectStart(distinct: bool, list: seq<seq<Token>>, table: Table)

  /** A select list; an empty one stands for all columns. */
  function ListOrAll(ts: seq<Token>): (seq<seq<Token>>, seq<Token>) {
    if ts != [] && ts[0] == Word("*") then ([], ts[1..]) else ListAt(ts)
  }

  /** What is selected from which table, and the rest of the statement. */
  function ReadSelect(ts: seq<Token>): Option<(SelectStart, seq<Token>)> {
    if ts == [] || ts[0] != Word("SELECT") then None
    else
      var distinct := |ts| > 1 && ts[1] == Word("DISTINCT");
      var (items, from) := ListOrAll(if distinct then ts[2..] else ts[1..]);
      if from == [] || from[0] != Word("FROM") then None
      else
        match TableAt(from[1..])
        case None => None
        case Some((table, rest)) => Some((SelectStart(distinct, items, table), rest))
  }

  /** A join at this place: whether it keeps unmatched rows, and its table. */
  function JoinAt(ts: seq<Token>): Option<((bool, Table), seq<Token>)> {
    if ts == [] || (ts[0] != Word("JOIN") && ts[0] != Word("LEFT JOIN")) then None
    else
      match TableAt(ts[1..])
      case None => None
      case Some((table, rest)) =>
        if rest != [] && rest[0] == Word("ON") then Some(((ts[0] == Word("LEFT JOIN"), table), rest[1..])) else None
  }

  datatype Direction = Ascending(col: Column) | Descending(col: Column) | ByOwn(sql: string)

  function DirectionAt(ts: seq<Token>): Option<(Direction, seq<Token>)> {
    if ts == [] then None
    else if ts[0].Own? then Some((ByOwn(ts[0].sql), ts[1..]))
    else if |ts| < 2 || !ts[0].Ident? then None
    else if ts[1] == Word("ASC") then Some((Ascending(ts[0].c), ts[2..]))
    else if ts[1] == Word("DESC") then Some((Descending(ts[0].c), ts[2..]))
    else None
  }

  function DirectionsAt(ts: seq<Token>): Option<(seq<Direction>, seq<Token>)>
    decreases |ts|
  {
    match DirectionAt(ts)
    case None => None
    case Some((first, rest)) =>
      if rest != [] && rest[0].Comma? then
        match DirectionsAt(rest[1..])
        case None => None
        case Some((more, after)) => Some(([first] + more, after))
      else Some(([first], rest))
  }

  datatype Lock = NoLock | ForUpdate | ForShare

  datatype SelectEnd = SelectEnd(order: seq<Direction>, limit: Option<int>, offset: Option<int>, lock: Lock, skipLocked: bool)

  /** A number after a keyword, if the keyword comes next. */
  function NumberAt(keyword: string, ts: seq<Token>): (Option<int>, seq<Token>) {
    if |ts| >= 2 && ts[0] == Word(keyword) && ts[1].Num? then (Some(ts[1].value), ts[2..]) else (None, ts)
  }

  function OrderAt(ts: seq<Token>): Option<(seq<Direction>, seq<Token>)> {
    if ts != [] && ts[0] == Word("ORDER BY") then DirectionsAt(ts[1..]) else Some(([], ts))
  }

  function LockAt(ts: seq<Token>): (Lock, seq<Token>) {
    if ts == [] then (NoLock, ts)
    else if ts[0] == Word("FOR UPDATE") then (ForUpdate, ts[1..])
    else if ts[0] == Word("FOR SHARE") then (ForShare, ts[1..])
    else (NoLock, ts)
  }

  /** The clauses that end a SELECT, from its ordering on. */
  function ReadSelectEnd(ts: seq<Token>): Option<SelectEnd> {
    match OrderAt(ts)
    case None => None
    case Some((order, rest)) =>
      var (limit, afterLimit) := NumberAt("LIMIT", rest);
      var (offset, afterOffset) := NumberAt("OFFSET", afterLimit);
      var (lock, last) := LockAt(afterOffset);
      if last == [] then Some(SelectEnd(order, limit, offset, lock, false))
      else if last == [Word("SKIP LOCKED")] then Some(SelectEnd(order, limit, offset, lock, true))
      else None
  }

  /** What follows a condition, in which no keyword of a clause can stand: the next clause. */
  function NextClause(ts: seq<Token>): (r: seq<Token>)
    ensures |r| <= |ts|
  {
    if ts == [] || ts[0].Word? then ts else NextClause(ts[1..])
  }

  /** The joins, one after the other, and what comes after the last one's condition. */
  function JoinsAt(ts: seq<Token>): (seq<(bool, Table)>, seq<Token>)
    decreases |ts|
  {
    match JoinAt(ts)
    case None => ([], ts)
    case Some((join, on)) =>
      if |on| < |ts| then
        var (more, rest) := JoinsAt(NextClause(on));
        ([join] + more, rest)
      else ([join], on)
  }

  /** Past a clause that is one condition, if it comes next. */
  function SkipCondition(keyword: string, ts: seq<Token>): seq<Token> {
    if ts != [] && ts[0] == Word(keyword) then NextClause(ts[1..]) else ts
  }

  function GroupsAt(ts: seq<Token>): (seq<seq<Token>>, seq<Token>) {
    if ts != [] && ts[0] == Word("GROUP BY") then ListAt(ts[1..]) else ([], ts)
  }

  datatype SelectMeaning = SelectMeaning(start: SelectStart, joins: seq<(bool, Table)>, groupBy: seq<seq<Token>>, end: SelectEnd)

  function ReadSelectStatement(ts: seq<Token>): Option<SelectMeaning> {
    match ReadSelect(ts)
    case None => None
    case Some((start, afterStart)) =>
      var (joins, afterJoins) := JoinsAt(afterStart);
      var (groupBy, afterGroups) := GroupsAt(SkipCondition("WHERE", afterJoins));
      match ReadSelectEnd(SkipCondition("HAVING", afterGroups))
      case None => None
      case Some(end) => Some(SelectMeaning(start, joins, groupBy, end))
  }
}
