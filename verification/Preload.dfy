/** Batched preloading (pack/preload.go), proved to give every parent what a query of its own would. */
module Preloads {
  import opened Results
  import opened SqlText
  import opened Predicates
  import opened SqlMeaning
  import opened Queries

  // One IN query fetches the rows for all parents of a relation, which are then handed out by key.

  type Row = map<string, Value>

  /** A model value: the columns it was scanned from, and the relation fields filled so far. */
  datatype Record = Record(cols: Row, related: map<string, seq<Record>>)

  datatype ModelTable = ModelTable(alias: string, columns: seq<string>, pk: seq<string>)

  datatype Kind = BelongsTo | HasOne | HasMany

  datatype Relation = Relation(field: string, kind: Kind, owner: string, target: string, fk: string, ref: string)

  datatype Spec = Spec(rel: Relation, where: Predicate, nested: seq<Spec>)

  datatype LoadError =
    | NoDefaultRef(field: string, table: string)
    | NoFieldFor(field: string, column: string, table: string)
    | BadQuery(error: RenderError)

  datatype Database = Database(
    dialect: Dialect,
    schema: map<string, ModelTable>,
    rows: map<string, seq<Row>>,
    compare: (Op, Value, Value) -> Tri
  )

  predicate IsZero(v: Value) {
    v == Null || v == Int(0) || v == Text("")
  }

  function Get(row: Row, column: string): Value {
    if column in row then row[column] else Null
  }

  // ----- Options -----

  datatype PreloadOption =
    | WhereOption(p: Predicate)
    | NestedOption(rel: Relation, opts: seq<PreloadOption>)

  /** Options apply to a preload one after the other. */
  function Apply(spec: Spec, opts: seq<PreloadOption>): Spec
    decreases opts
  {
    if opts == [] then spec
    else
      match opts[0]
      case WhereOption(p) => Apply(spec.(where := AndJoin(spec.where, p)), opts[1..])
      case NestedOption(rel, inner) =>
        assert opts decreases to opts[0];
        Apply(spec.(nested := spec.nested + [Apply(Spec(rel, NoCondition, []), inner)]), opts[1..])
  }

  /** However many Where options a preload has, a child is loaded when all of them hold. */
  lemma {:induction false} EveryWhereApplies(spec: Spec, opts: seq<PreloadOption>, w: World)
    requires RawFree(spec.where) && forall o <- opts :: o.WhereOption? ==> RawFree(o.p)
    ensures var built := Apply(spec, opts);
            && built.rel == spec.rel && RawFree(built.where)
            && (Meaning(built.where, w) == True <==>
                  Meaning(spec.where, w) == True && forall o <- opts :: o.WhereOption? ==> Meaning(o.p, w) == True)
    decreases |opts|
  {
    if opts != [] {
      var first, rest := opts[0], opts[1..];
      assert first in opts && forall o <- opts :: o == first || o in rest;
      match first
      case WhereOption(p) =>
        PairMeaning(spec.where, p, w);
        EveryWhereApplies(spec.(where := AndJoin(spec.where, p)), rest, w);
      case NestedOption(rel, inner) =>
        EveryWhereApplies(spec.(nested := spec.nested + [Apply(Spec(rel, NoCondition, []), inner)]), rest, w);
    }
  }

  // ----- The columns a relation joins on -----

  predicate HasTables(db: Database, rel: Relation) {
    rel.owner in db.schema && rel.target in db.schema && rel.target in db.rows
  }

  function ResolveRefColumn(rel: Relation, owner: ModelTable, target: ModelTable): Result<string, LoadError> {
    var table := if rel.kind.BelongsTo? then target else owner;
    if rel.ref != "" then Success(rel.ref)
    else if |table.pk| != 1 then Failure(NoDefaultRef(rel.field, if rel.kind.BelongsTo? then rel.target else rel.owner))
    else Success(table.pk[0])
  }

  /** The parent's column and the child's column that must agree. */
  function JoinColumns(db: Database, rel: Relation): Result<(string, string), LoadError>
    requires HasTables(db, rel)
  {
    var owner, target := db.schema[rel.owner], db.schema[rel.target];
    match ResolveRefColumn(rel, owner, target)
    case Failure(e) => Failure(e)
    case Success(ref) =>
      var batch := if rel.kind.BelongsTo? then rel.fk else ref;
      var child := if rel.kind.BelongsTo? then ref else rel.fk;
      if batch !in owner.columns then Failure(NoFieldFor(rel.field, batch, rel.owner))
      else if child !in target.columns then Failure(NoFieldFor(rel.field, child, rel.target))
      else Success((batch, child))
  }

  /** A join always pairs the foreign key with the column it refers to, on the side each belongs to. */
  lemma JoinsForeignKey(db: Database, rel: Relation)
    requires HasTables(db, rel) && JoinColumns(db, rel).Success?
    ensures var (batch, child) := JoinColumns(db, rel).value;
            && batch in db.schema[rel.owner].columns && child in db.schema[rel.target].columns
            && (if rel.kind.BelongsTo? then batch else child) == rel.fk
            && var ref := if rel.kind.BelongsTo? then child else batch;
               var side := db.schema[if rel.kind.BelongsTo? then rel.target else rel.owner];
               if rel.ref != "" then ref == rel.ref else side.pk == [ref]
  {
  }

  // ----- What a query returns -----

  function RowWorld(db: Database, alias: string, row: Row): World {
    World((c: Column) => if c.table == alias then Get(row, c.name) else Null, db.compare)
  }

  /** The rows of a table, in the engine's order, on which p is true. */
  function Matching(db: Database, alias: string, rows: seq<Row>, p: Predicate): seq<Record>
    requires RawFree(p)
  {
    if rows == [] then []
    else (if Meaning(p, RowWorld(db, alias, rows[0])) == True then [Record(rows[0], map[])] else [])
         + Matching(db, alias, rows[1..], p)
  }

  /** runPreload's condition: joined with the Where option only when there is one. */
  function Scoped(key: Predicate, where: Predicate): Predicate {
    if where.IsZero() then key else And([key, where])
  }

  // ----- The reference: one query per parent -----

  predicate SpecOk(db: Database, spec: Spec) {
    HasTables(db, spec.rel) && RawFree(spec.where) && forall n <- spec.nested :: SpecOk(db, n)
  }

  function Attach(parent: Record, rel: Relation, kids: seq<Record>): Record {
    if kids == [] then parent
    else parent.(related := parent.related[rel.field := if rel.kind.HasMany? then kids else [kids[0]]])
  }

  /** Loads one parent's relation with a query of its own, and each child's nested relations likewise. */
  function Separate(db: Database, parent: Record, spec: Spec): Result<Record, LoadError>
    requires SpecOk(db, spec)
    decreases spec, 0
  {
    match JoinColumns(db, spec.rel)
    case Failure(e) => Failure(e)
    case Success((batch, child)) =>
      var key, alias := Get(parent.cols, batch), db.schema[spec.rel.target].alias;
      if IsZero(key) then Success(parent)
      else if FirstError(db.dialect, spec.where).Some? then Failure(BadQuery(FirstError(db.dialect, spec.where).value))
      else
        var query := Scoped(Compare(Eq, Column(alias, child), key), spec.where);
        ScopedRawFree(Compare(Eq, Column(alias, child), key), spec.where);
        match LoadEach(db, Matching(db, alias, db.rows[spec.rel.target], query), spec.nested)
        case Failure(e) => Failure(e)
        case Success(kids) => Success(Attach(parent, spec.rel, kids))
  }

  function LoadEach(db: Database, rs: seq<Record>, specs: seq<Spec>): Result<seq<Record>, LoadError>
    requires forall n <- specs :: SpecOk(db, n)
    decreases specs, |rs| + 1
  {
    if rs == [] then Success([])
    else
      match LoadAll(db, rs[0], specs)
      case Failure(e) => Failure(e)
      case Success(r) =>
        match LoadEach(db, rs[1..], specs)
        case Failure(e) => Failure(e)
        case Success(more) => Success([r] + more)
  }

  /** One record with several relations loaded, one after the other. */
  function LoadAll(db: Database, r: Record, specs: seq<Spec>): Result<Record, LoadError>
    requires forall n <- specs :: SpecOk(db, n)
    decreases specs, 0
  {
    if specs == [] then Success(r)
    else
      assert specs[0] in specs;
      match Separate(db, r, specs[0])
      case Failure(e) => Failure(e)
      case Success(loaded) => LoadAll(db, loaded, specs[1..])
  }

  lemma ScopedRawFree(key: Predicate, where: Predicate)
    requires RawFree(key) && RawFree(where)
    ensures RawFree(Scoped(key, where))
  {
  }

  // ----- SQL equality on keys -----

  /** Assumed of the engine: two values are equal exactly when they are one value and not NULL. */
  ghost predicate EqualityAgrees(db: Database) {
    forall a, b :: db.compare(Eq, a, b) == True <==> a == b && a != Null
  }

  lemma {:induction false} InMeaning(w: World, col: Column, keys: seq<Value>)
    requires forall a, b :: w.compare(Eq, a, b) == True <==> a == b && a != Null
    ensures Meaning(In(col, keys), w) == True <==> w.row(col) in keys && w.row(col) != Null
    decreases |keys|
  {
    if keys != [] {
      InMeaning(w, col, keys[1..]);
      assert Meaning(In(col, keys), w) == Or3(w.compare(Eq, w.row(col), keys[0]), Meaning(In(col, keys[1..]), w));
    }
  }

  lemma ScopedMeaning(key: Predicate, where: Predicate, w: World)
    requires RawFree(key) && RawFree(where)
    ensures RawFree(Scoped(key, where))
    ensures Meaning(Scoped(key, where), w) == True <==> Meaning(key, w) == True && Meaning(where, w) == True
  {
    PairMeaning(key, where, w);
  }

  // ----- One query for all is as good as one for each -----

  /** The records whose value in a column is the given key. */
  function WithKey(rs: seq<Record>, column: string, key: Value): seq<Record> {
    if rs == [] then []
    else (if Get(rs[0].cols, column) == key then [rs[0]] else []) + WithKey(rs[1..], column, key)
  }

  lemma {:induction false} WithKeyConcat(a: seq<Record>, b: seq<Record>, column: string, key: Value)
    ensures WithKey(a + b, column, key) == WithKey(a, column, key) + WithKey(b, column, key)
    decreases |a|
  {
    if a == [] {
      assert a + b == b;
    } else {
      hide Get;
      var first := if Get(a[0].cols, column) == key then [a[0]] else [];
      WithKeyConcat(a[1..], b, column, key);
      assert (a + b)[1..] == a[1..] + b;
      SeqAssociates(first, WithKey(a[1..], column, key), WithKey(b, column, key));
    }
  }

  lemma WithKeySnoc(rs: seq<Record>, c: Record, column: string)
    ensures forall k :: WithKey(rs + [c], column, k) == if Get(c.cols, column) == k then WithKey(rs, column, k) + [c] else WithKey(rs, column, k)
  {
    forall k
      ensures WithKey(rs + [c], column, k) == if Get(c.cols, column) == k then WithKey(rs, column, k) + [c] else WithKey(rs, column, k)
    {
      WithKeyConcat(rs, [c], column, k);
      assert WithKey([c], column, k) == if Get(c.cols, column) == k then [c] else [];
    }
  }

  /** The batch, cut down to one key, is that key's own query, row for row. */
  lemma {:induction false} BatchByKey(db: Database, alias: string, rows: seq<Row>, child: string, keys: seq<Value>, key: Value, where: Predicate)
    requires EqualityAgrees(db) && RawFree(where) && key in keys && key != Null
    ensures var col := Column(alias, child);
            && RawFree(Scoped(In(col, keys), where)) && RawFree(Scoped(Compare(Eq, col, key), where))
            && WithKey(Matching(db, alias, rows, Scoped(In(col, keys), where)), child, key)
               == Matching(db, alias, rows, Scoped(Compare(Eq, col, key), where))
    decreases |rows|
  {
    var col := Column(alias, child);
    ScopedRawFree(In(col, keys), where);
    ScopedRawFree(Compare(Eq, col, key), where);
    if rows != [] {
      var w := RowWorld(db, alias, rows[0]);
      InMeaning(w, col, keys);
      ScopedMeaning(In(col, keys), where, w);
      ScopedMeaning(Compare(Eq, col, key), where, w);
      BatchByKey(db, alias, rows[1..], child, keys, key, where);
      var r := Record(rows[0], map[]);
      var rest := Matching(db, alias, rows[1..], Scoped(In(col, keys), where));
      var first := if Meaning(Scoped(In(col, keys), where), w) == True then [r] else [];
      WithKeyConcat(first, rest, child, key);
      assert WithKey([r], child, key) == if Get(r.cols, child) == key then [r] else [];
    }
  }

  /** A batched row has one of the keys, and is a plain row. */
  lemma {:induction false} BatchKeys(db: Database, alias: string, rows: seq<Row>, child: string, keys: seq<Value>, where: Predicate, i: nat)
    requires EqualityAgrees(db) && RawFree(where) && RawFree(Scoped(In(Column(alias, child), keys), where))
    requires i < |Matching(db, alias, rows, Scoped(In(Column(alias, child), keys), where))|
    ensures var r := Matching(db, alias, rows, Scoped(In(Column(alias, child), keys), where))[i];
            Get(r.cols, child) in keys
    decreases |rows|
  {
    var p := Scoped(In(Column(alias, child), keys), where);
    var w := RowWorld(db, alias, rows[0]);
    var first := if Meaning(p, w) == True then [Record(rows[0], map[])] else [];
    if i < |first| {
      InMeaning(w, Column(alias, child), keys);
      ScopedMeaning(In(Column(alias, child), keys), where, w);
    } else {
      BatchKeys(db, alias, rows[1..], child, keys, where, i - |first|);
    }
  }

  // ----- Loading relations leaves the columns alone -----

  lemma {:induction false} LoadKeepsCols(db: Database, r: Record, specs: seq<Spec>)
    requires forall n <- specs :: SpecOk(db, n)
    requires LoadAll(db, r, specs).Success?
    ensures LoadAll(db, r, specs).value.cols == r.cols
    decreases |specs|
  {
    if specs != [] {
      assert specs[0] in specs;
      LoadKeepsCols(db, Separate(db, r, specs[0]).value, specs[1..]);
    }
  }

  lemma {:induction false} LoadSnoc(db: Database, r: Record, specs: seq<Spec>, last: Spec)
    requires (forall n <- specs :: SpecOk(db, n)) && SpecOk(db, last)
    ensures LoadAll(db, r, specs + [last])
            == match LoadAll(db, r, specs)
               case Failure(e) => Failure(e)
               case Success(loaded) => Separate(db, loaded, last)
    decreases |specs|
  {
    if specs == [] {
      assert specs + [last] == [last];
      assert LoadAll(db, r, [last]) == match Separate(db, r, last) case Failure(e) => Failure(e) case Success(l) => LoadAll(db, l, []);
    } else {
      assert specs[0] in specs;
      assert (specs + [last])[1..] == specs[1..] + [last];
      assert (specs + [last])[0] == specs[0];
      if Separate(db, r, specs[0]).Success? {
        LoadSnoc(db, Separate(db, r, specs[0]).value, specs[1..], last);
      }
    }
  }

  /** Loading the whole batch and then picking a key is loading that key's rows. */
  lemma {:induction false} LoadByKey(db: Database, fetched: seq<Record>, loaded: seq<Record>, specs: seq<Spec>, child: string, key: Value)
    requires forall n <- specs :: SpecOk(db, n)
    requires |loaded| == |fetched| && forall i :: 0 <= i < |fetched| ==> LoadAll(db, fetched[i], specs) == Success(loaded[i])
    ensures LoadEach(db, WithKey(fetched, child, key), specs) == Success(WithKey(loaded, child, key))
    decreases |fetched|
  {
    if fetched != [] {
      LoadKeepsCols(db, fetched[0], specs);
      assert LoadAll(db, fetched[0], specs) == Success(loaded[0]);
      LoadByKey(db, fetched[1..], loaded[1..], specs, child, key);
      var mine, done := WithKey(fetched[1..], child, key), WithKey(loaded[1..], child, key);
      if Get(fetched[0].cols, child) == key {
        assert ([fetched[0]] + mine)[1..] == mine;
      } else {
        assert [] + mine == mine && [] + done == done;
      }
    }
  }

  lemma {:induction false} LoadEachFails(db: Database, rs: seq<Record>, i: nat, specs: seq<Spec>)
    requires (forall n <- specs :: SpecOk(db, n)) && i < |rs| && LoadAll(db, rs[i], specs).Failure?
    ensures LoadEach(db, rs, specs).Failure?
    decreases |rs|
  {
    if i > 0 {
      LoadEachFails(db, rs[1..], i - 1, specs);
    }
  }

  lemma {:induction false} KeyFound(rs: seq<Record>, i: nat, column: string) returns (k: nat)
    requires i < |rs|
    ensures k < |WithKey(rs, column, Get(rs[i].cols, column))|
    ensures WithKey(rs, column, Get(rs[i].cols, column))[k] == rs[i]
    decreases |rs|
  {
    var key := Get(rs[i].cols, column);
    assert WithKey(rs, column, key) == (if Get(rs[0].cols, column) == key then [rs[0]] else []) + WithKey(rs[1..], column, key);
    if i == 0 {
      k := 0;
    } else {
      k := KeyFound(rs[1..], i - 1, column);
      if Get(rs[0].cols, column) == key {
        k := k + 1;
      }
    }
  }

  // ----- What loading a relation leaves in a row -----

  ghost predicate Increasing(at: seq<nat>) {
    forall i, j :: 0 <= i < j < |at| ==> at[i] < at[j]
  }

  /** The places, in the engine's order, of the target's rows with this key for which the Where option holds. */
  ghost predicate MatchesAt(db: Database, spec: Spec, child: string, key: Value, at: seq<nat>)
    requires SpecOk(db, spec)
  {
    var rows, alias := db.rows[spec.rel.target], db.schema[spec.rel.target].alias;
    && Increasing(at)
    && forall i: nat :: i in at <==>
         i < |rows| && Get(rows[i], child) == key && Meaning(spec.where, RowWorld(db, alias, rows[i])) == True
  }

  /** Each kid is one of the rows at these places, in their order, with its own nested relations. */
  ghost predicate KidsFrom(db: Database, spec: Spec, at: seq<nat>, kids: seq<Record>)
    requires SpecOk(db, spec)
    decreases spec, 0
  {
    var rows := db.rows[spec.rel.target];
    && |kids| == |at|
    && forall k :: 0 <= k < |at| ==>
         at[k] < |rows| && kids[k].cols == rows[at[k]] && HoldsAll(db, Record(rows[at[k]], map[]), kids[k], spec.nested)
  }

  /**
   What the documentation promises of one row: with a key of its own and some matching
   row, the relation holds every match in order, or the first one where it holds one;
   otherwise the row is as it was. Its columns and its other relations never change.
   */
  ghost predicate HoldsRelation(db: Database, before: Record, after: Record, spec: Spec)
    requires SpecOk(db, spec)
    decreases spec, 2
  {
    && JoinColumns(db, spec.rel).Success?
    && after.cols == before.cols
    && after.related - {spec.rel.field} == before.related - {spec.rel.field}
    && var (batch, child) := JoinColumns(db, spec.rel).value;
       var key := Get(before.cols, batch);
       if key == Null || key == Int(0) || key == Text("") then after == before
       else exists at :: MatchesAt(db, spec, child, key, at) && HoldsMatches(db, before, after, spec, at)
  }

  ghost predicate HoldsMatches(db: Database, before: Record, after: Record, spec: Spec, at: seq<nat>)
    requires SpecOk(db, spec)
    decreases spec, 1
  {
    if at == [] then after == before
    else
      && spec.rel.field in after.related
      && KidsFrom(db, spec, if spec.rel.kind.HasMany? then at else at[..1], after.related[spec.rel.field])
  }

  /** Several relations, loaded one after the other. */
  ghost predicate HoldsAll(db: Database, before: Record, after: Record, specs: seq<Spec>)
    requires forall n <- specs :: SpecOk(db, n)
    decreases specs, 0
  {
    if specs == [] then after == before
    else
      assert specs[0] in specs;
      exists mid :: HoldsRelation(db, before, mid, specs[0]) && HoldsAll(db, mid, after, specs[1..])
  }

  /** Some relation to load has no columns to join on, or its Where option cannot be rendered. */
  ghost predicate Broken(db: Database, spec: Spec)
    requires SpecOk(db, spec)
  {
    JoinColumns(db, spec.rel).Failure? || !Renderable(db.dialect, spec.where) || exists n <- spec.nested :: Broken(db, n)
  }

  /** found are the rows wanted, in order, and at their places. */
  ghost predicate Picked(rows: seq<Row>, wanted: seq<bool>, found: seq<Record>, at: seq<nat>)
    requires |wanted| == |rows|
  {
    && Increasing(at) && |found| == |at|
    && (forall i: nat :: i in at <==> i < |rows| && wanted[i])
    && (forall k: nat :: k < |at| ==> at[k] < |rows| && found[k] == Record(rows[at[k]], map[]))
  }

  lemma PickedCons(rows: seq<Row>, wanted: seq<bool>, rest: seq<Record>, later: seq<nat>) returns (at: seq<nat>)
    requires rows != [] && |wanted| == |rows| && Picked(rows[1..], wanted[1..], rest, later)
    ensures Picked(rows, wanted, (if wanted[0] then [Record(rows[0], map[])] else []) + rest, at)
  {
    at := PlacesCons(later, wanted[0]);
    var first := if wanted[0] then [Record(rows[0], map[])] else [];
    hide Increasing;
    forall i: nat
      ensures i in at <==> i < |rows| && wanted[i]
    {
      if i > 0 {
        assert i in at <==> i - 1 in later;
        assert i < |rows| ==> wanted[1..][i - 1] == wanted[i];
      }
    }
    forall k: nat | k < |at|
      ensures at[k] < |rows| && (first + rest)[k] == Record(rows[at[k]], map[])
    {
      if k >= |first| {
        var j := k - |first|;
        assert at[k] == later[j] + 1 && (first + rest)[k] == rest[j];
        assert rows[1..][later[j]] == rows[at[k]];
      }
    }
  }

  ghost function Wanted(db: Database, alias: string, rows: seq<Row>, p: Predicate): (r: seq<bool>)
    requires RawFree(p)
    ensures |r| == |rows|
  {
    seq(|rows|, i requires 0 <= i < |rows| => Meaning(p, RowWorld(db, alias, rows[i])) == True)
  }

  /** Matching's rows are those on which the condition is true, in order. */
  lemma {:induction false} MatchingRows(db: Database, alias: string, rows: seq<Row>, p: Predicate) returns (at: seq<nat>)
    requires RawFree(p)
    ensures Picked(rows, Wanted(db, alias, rows, p), Matching(db, alias, rows, p), at)
    decreases |rows|
  {
    at := [];
    if rows != [] {
      var later := MatchingRows(db, alias, rows[1..], p);
      assert Wanted(db, alias, rows, p)[1..] == Wanted(db, alias, rows[1..], p);
      hide Picked, Meaning, RowWorld;
      at := PickedCons(rows, Wanted(db, alias, rows, p), Matching(db, alias, rows[1..], p), later);
    }
  }

  /** The places in a list, from those in its tail. */
  lemma PlacesCons(later: seq<nat>, first: bool) returns (at: seq<nat>)
    requires Increasing(later)
    ensures Increasing(at) && |at| == |later| + if first then 1 else 0
    ensures first ==> at[0] == 0
    ensures forall k :: |at| - |later| <= k < |at| ==> at[k] == later[k - (|at| - |later|)] + 1
    ensures 0 in at <==> first
    ensures forall i: nat :: i > 0 ==> (i in at <==> i - 1 in later)
  {
    var shifted := seq(|later|, k requires 0 <= k < |later| => later[k] + 1);
    at := if first then [0] + shifted else shifted;
    forall i: nat | i > 0
      ensures i in at <==> i - 1 in later
    {
      if i - 1 in later {
        var k :| 0 <= k < |later| && later[k] == i - 1;
        assert shifted[k] == i;
      }
    }
  }

  lemma OwnQuery(db: Database, spec: Spec, child: string, key: Value) returns (at: seq<nat>)
    requires EqualityAgrees(db) && SpecOk(db, spec) && key != Null
    ensures var alias := db.schema[spec.rel.target].alias;
            var query := Scoped(Compare(Eq, Column(alias, child), key), spec.where);
            && RawFree(query) && MatchesAt(db, spec, child, key, at)
            && var found := Matching(db, alias, db.rows[spec.rel.target], query);
               |found| == |at| && forall k :: 0 <= k < |at| ==>
                 at[k] < |db.rows[spec.rel.target]| && found[k] == Record(db.rows[spec.rel.target][at[k]], map[])
  {
    var alias, rows := db.schema[spec.rel.target].alias, db.rows[spec.rel.target];
    var own := Compare(Eq, Column(alias, child), key);
    ScopedRawFree(own, spec.where);
    at := MatchingRows(db, alias, rows, Scoped(own, spec.where));
    forall i | 0 <= i < |rows|
      ensures Meaning(Scoped(own, spec.where), RowWorld(db, alias, rows[i])) == True
         <==> Get(rows[i], child) == key && Meaning(spec.where, RowWorld(db, alias, rows[i])) == True
    {
      ScopedMeaning(own, spec.where, RowWorld(db, alias, rows[i]));
    }
    hide Meaning, Scoped, Matching, RowWorld, Increasing;
  }

  /** A query of its own and the nested loads leave in a row what is promised; it takes a broken relation to fail. */
  lemma {:induction false} SeparateHolds(db: Database, r: Record, spec: Spec)
    requires EqualityAgrees(db) && SpecOk(db, spec)
    ensures Separate(db, r, spec).Success? ==> HoldsRelation(db, r, Separate(db, r, spec).value, spec)
    ensures Separate(db, r, spec).Failure? ==> Broken(db, spec)
    decreases spec, 0
  {
    hide Meaning, Matching, RowWorld, FirstError, Renderable, EqualityAgrees;
    RendersIff(db.dialect, spec.where);
    if JoinColumns(db, spec.rel).Success? {
      var (batch, child) := JoinColumns(db, spec.rel).value;
      var key, alias := Get(r.cols, batch), db.schema[spec.rel.target].alias;
      if !IsZero(key) && FirstError(db.dialect, spec.where).None? {
        var at := OwnQuery(db, spec, child, key);
        var found := Matching(db, alias, db.rows[spec.rel.target], Scoped(Compare(Eq, Column(alias, child), key), spec.where));
        LoadEachHolds(db, found, spec.nested);
        if LoadEach(db, found, spec.nested).Success? {
          var kids := LoadEach(db, found, spec.nested).value;
          assert KidsFrom(db, spec, at, kids);
          hide Scoped, Separate, LoadEach, MatchesAt, JoinColumns;
          AttachHolds(db, r, spec, at, kids);
        }
      }
    }
  }

  lemma AttachHolds(db: Database, r: Record, spec: Spec, at: seq<nat>, kids: seq<Record>)
    requires SpecOk(db, spec) && KidsFrom(db, spec, at, kids)
    ensures HoldsMatches(db, r, Attach(r, spec.rel, kids), spec, at)
    ensures Attach(r, spec.rel, kids).cols == r.cols
    ensures Attach(r, spec.rel, kids).related - {spec.rel.field} == r.related - {spec.rel.field}
  {
  }

  lemma {:induction false} LoadEachHolds(db: Database, rs: seq<Record>, specs: seq<Spec>)
    requires EqualityAgrees(db) && forall n <- specs :: SpecOk(db, n)
    ensures var loaded := LoadEach(db, rs, specs);
            && (loaded.Success? ==> |loaded.value| == |rs| && forall k :: 0 <= k < |rs| ==>
                  loaded.value[k].cols == rs[k].cols && HoldsAll(db, rs[k], loaded.value[k], specs))
            && (loaded.Failure? ==> exists n <- specs :: Broken(db, n))
    decreases specs, |rs| + 1
  {
    if rs != [] {
      LoadAllHolds(db, rs[0], specs);
      LoadEachHolds(db, rs[1..], specs);
      if LoadAll(db, rs[0], specs).Success? {
        LoadKeepsCols(db, rs[0], specs);
      }
      hide HoldsAll, Broken, LoadAll, EqualityAgrees, SpecOk;
    }
  }

  lemma {:induction false} LoadAllHolds(db: Database, r: Record, specs: seq<Spec>)
    requires EqualityAgrees(db) && forall n <- specs :: SpecOk(db, n)
    ensures LoadAll(db, r, specs).Success? ==> HoldsAll(db, r, LoadAll(db, r, specs).value, specs)
    ensures LoadAll(db, r, specs).Failure? ==> exists n <- specs :: Broken(db, n)
    decreases specs, 0
  {
    if specs != [] {
      assert specs[0] in specs && forall n <- specs[1..] :: n in specs;
      SeparateHolds(db, r, specs[0]);
      if Separate(db, r, specs[0]).Success? {
        LoadAllHolds(db, Separate(db, r, specs[0]).value, specs[1..]);
      }
      hide HoldsRelation, Broken, Separate, EqualityAgrees, SpecOk;
    }
  }

  // ----- The batched loader -----

  /** The value rows[i] joins by. */
  ghost function KeyAt(rows: seq<Record>, i: nat, column: string): Value
    requires i < |rows|
  {
    Get(rows[i].cols, column)
  }

  /** The grouping of the first n parents: their nonzero keys, each with the places it occurs at. */
  ghost predicate Grouped(rows: seq<Record>, n: nat, column: string, keys: seq<Value>, places: map<Value, seq<nat>>)
    requires n <= |rows|
  {
    && (forall v :: v in keys <==> v in places)
    && (forall v :: v in places ==> !IsZero(v) && places[v] != [] && forall i :: i in places[v] ==> i < n && KeyAt(rows, i, column) == v)
    && (forall i :: 0 <= i < n && !IsZero(KeyAt(rows, i, column)) ==>
          KeyAt(rows, i, column) in places && i in places[KeyAt(rows, i, column)])
  }

  /** Groups the parents by key, keys in the order they first occur. */
  method GroupParents(parents: array<Record>, column: string) returns (keys: seq<Value>, places: map<Value, seq<nat>>)
    ensures Grouped(parents[..], parents.Length, column, keys, places)
  {
    keys, places := [], map[];
    for i := 0 to parents.Length
      invariant Grouped(parents[..], i, column, keys, places)
    {
      var key := Get(parents[i].cols, column);
      if IsZero(key) {
        continue;
      }
      if key !in places {
        keys := keys + [key];
      }
      places := places[key := (if key in places then places[key] else []) + [i]];
    }
  }

  function Lookup(byKey: map<Value, seq<Record>>, key: Value): seq<Record> {
    if key in byKey then byKey[key] else []
  }

  method GroupChildren(children: array<Record>, column: string) returns (byKey: map<Value, seq<Record>>)
    ensures forall key :: Lookup(byKey, key) == WithKey(children[..], column, key)
  {
    byKey := map[];
    assert forall key :: WithKey([], column, key) == [];
    hide WithKey;
    assert children[..0] == [];
    for i := 0 to children.Length
      invariant forall key :: Lookup(byKey, key) == WithKey(children[..i], column, key)
    {
      var c := children[i];
      var key := Get(c.cols, column);
      assert children[..i + 1] == children[..i] + [c];
      WithKeySnoc(children[..i], c, column);
      byKey := byKey[key := Lookup(byKey, key) + [c]];
    }
    assert children[..children.Length] == children[..];
  }

  /** What the batch leaves in rows[i] when the children of each key are as given. */
  ghost function Assigned(rows: seq<Record>, i: nat, column: string, rel: Relation, byKey: map<Value, seq<Record>>): Record
    requires i < |rows|
  {
    if IsZero(KeyAt(rows, i, column)) then rows[i] else Attach(rows[i], rel, Lookup(byKey, KeyAt(rows, i, column)))
  }

  /** Hands each key's children to the parents at its places, key by key in any order. */
  method AssignChildren(parents: array<Record>, column: string, rel: Relation, keys: seq<Value>, places: map<Value, seq<nat>>,
                        byKey: map<Value, seq<Record>>)
    requires Grouped(parents[..], parents.Length, column, keys, places)
    modifies parents
    ensures forall i :: 0 <= i < parents.Length ==> parents[i] == Assigned(old(parents[..]), i, column, rel, byKey)
    ensures forall i :: 0 <= i < parents.Length ==>
      var before, after, key := old(parents[..])[i], parents[i], Get(old(parents[..])[i].cols, column);
      if IsZero(key) || key !in byKey || byKey[key] == [] then after == before
      else
        && after.cols == before.cols && after.related - {rel.field} == before.related - {rel.field}
        && rel.field in after.related && after.related[rel.field] == if rel.kind.HasMany? then byKey[key] else [byKey[key][0]]
  {
    var left := places.Keys;
    ghost var before := parents[..];
    while left != {}
      invariant left <= places.Keys
      invariant forall i :: 0 <= i < parents.Length ==>
        parents[i] == if KeyAt(before, i, column) in left then before[i] else Assigned(before, i, column, rel, byKey)
      decreases |left|
    {
      var key :| key in left;
      var kids, idxs := Lookup(byKey, key), places[key];
      if kids != [] {
        for n := 0 to |idxs|
          invariant forall i :: 0 <= i < parents.Length ==>
            parents[i] == if i in idxs[..n] || KeyAt(before, i, column) !in left then Assigned(before, i, column, rel, byKey) else before[i]
        {
          var idx := idxs[n];
          assert idx in idxs;
          parents[idx] := parents[idx].(related := parents[idx].related[rel.field := if rel.kind.HasMany? then kids else [kids[0]]]);
        }
      }
      left := left - {key};
    }
  }

  /** When no query is needed, or none can be made. */
  lemma SeparateWithoutQuery(db: Database, r: Record, spec: Spec)
    requires SpecOk(db, spec)
    ensures JoinColumns(db, spec.rel).Failure? ==> Separate(db, r, spec).Failure?
    ensures JoinColumns(db, spec.rel).Success? ==>
              var zero := IsZero(Get(r.cols, JoinColumns(db, spec.rel).value.0));
              && (zero ==> Separate(db, r, spec) == Success(r))
              && (!zero && FirstError(db.dialect, spec.where).Some? ==> Separate(db, r, spec).Failure?)
  {
  }

  /** The one query of a batch. */
  function BatchQuery(alias: string, child: string, keys: seq<Value>, where: Predicate): Predicate {
    Scoped(In(Column(alias, child), keys), where)
  }

  /** What a parent's own query and its nested loads give is its share of the loaded batch. */
  lemma ShareOfBatch(db: Database, r: Record, spec: Spec, keys: seq<Value>, loaded: seq<Record>)
    requires EqualityAgrees(db) && SpecOk(db, spec) && JoinColumns(db, spec.rel).Success? && FirstError(db.dialect, spec.where).None?
    requires RawFree(BatchQuery(db.schema[spec.rel.target].alias, JoinColumns(db, spec.rel).value.1, keys, spec.where))
    requires var (batch, child) := JoinColumns(db, spec.rel).value;
             var alias := db.schema[spec.rel.target].alias;
             var fetched := Matching(db, alias, db.rows[spec.rel.target], BatchQuery(alias, child, keys, spec.where));
             && Get(r.cols, batch) in keys && !IsZero(Get(r.cols, batch))
             && |loaded| == |fetched| && forall i :: 0 <= i < |fetched| ==> LoadAll(db, fetched[i], spec.nested) == Success(loaded[i])
    ensures var (batch, child) := JoinColumns(db, spec.rel).value;
            Separate(db, r, spec) == Success(Attach(r, spec.rel, WithKey(loaded, child, Get(r.cols, batch))))
  {
    hide Attach;
    var (batch, child) := JoinColumns(db, spec.rel).value;
    var key, alias, rows := Get(r.cols, batch), db.schema[spec.rel.target].alias, db.rows[spec.rel.target];
    BatchByKey(db, alias, rows, child, keys, key, spec.where);
    LoadByKey(db, Matching(db, alias, rows, BatchQuery(alias, child, keys, spec.where)), loaded, spec.nested, child, key);
  }

  /** A child that cannot be loaded fails the parent whose key it has. */
  lemma FailureOfBatch(db: Database, r: Record, spec: Spec, keys: seq<Value>, i: nat)
    requires EqualityAgrees(db) && SpecOk(db, spec) && JoinColumns(db, spec.rel).Success? && FirstError(db.dialect, spec.where).None?
    requires RawFree(BatchQuery(db.schema[spec.rel.target].alias, JoinColumns(db, spec.rel).value.1, keys, spec.where))
    requires var (batch, child) := JoinColumns(db, spec.rel).value;
             var alias := db.schema[spec.rel.target].alias;
             var fetched := Matching(db, alias, db.rows[spec.rel.target], BatchQuery(alias, child, keys, spec.where));
             && i < |fetched| && LoadAll(db, fetched[i], spec.nested).Failure?
             && Get(fetched[i].cols, child) == Get(r.cols, batch)
             && Get(r.cols, batch) in keys && !IsZero(Get(r.cols, batch))
    ensures Separate(db, r, spec).Failure?
  {
    var (batch, child) := JoinColumns(db, spec.rel).value;
    var key, alias, rows := Get(r.cols, batch), db.schema[spec.rel.target].alias, db.rows[spec.rel.target];
    var fetched := Matching(db, alias, rows, BatchQuery(alias, child, keys, spec.where));
    BatchByKey(db, alias, rows, child, keys, key, spec.where);
    var k := KeyFound(fetched, i, child);
    LoadEachFails(db, WithKey(fetched, child, key), k, spec.nested);
  }

  lemma FailedParent(db: Database, before: seq<Record>, spec: Spec, keys: seq<Value>, places: map<Value, seq<nat>>, i: nat) returns (j: nat)
    requires EqualityAgrees(db) && SpecOk(db, spec) && JoinColumns(db, spec.rel).Success? && FirstError(db.dialect, spec.where).None?
    requires Grouped(before, |before|, JoinColumns(db, spec.rel).value.0, keys, places)
    requires RawFree(BatchQuery(db.schema[spec.rel.target].alias, JoinColumns(db, spec.rel).value.1, keys, spec.where))
    requires var alias := db.schema[spec.rel.target].alias;
             var fetched := Matching(db, alias, db.rows[spec.rel.target], BatchQuery(alias, JoinColumns(db, spec.rel).value.1, keys, spec.where));
             i < |fetched| && LoadAll(db, fetched[i], spec.nested).Failure?
    ensures j < |before| && Separate(db, before[j], spec).Failure?
  {
    hide JoinColumns, Separate, Matching, LoadAll;
    var (batch, child) := JoinColumns(db, spec.rel).value;
    var alias := db.schema[spec.rel.target].alias;
    var fetched := Matching(db, alias, db.rows[spec.rel.target], BatchQuery(alias, child, keys, spec.where));
    BatchKeys(db, alias, db.rows[spec.rel.target], child, keys, spec.where, i);
    var key := Get(fetched[i].cols, child);
    j := places[key][0];
    assert j in places[key] && KeyAt(before, j, batch) == key;
    FailureOfBatch(db, before[j], spec, keys, i);
  }

  /** So what the batch leaves in a parent is what a query of its own would. */
  lemma AssignedIsSeparate(db: Database, before: seq<Record>, i: nat, spec: Spec, keys: seq<Value>, loaded: seq<Record>, byKey: map<Value, seq<Record>>)
    requires EqualityAgrees(db) && SpecOk(db, spec) && JoinColumns(db, spec.rel).Success? && FirstError(db.dialect, spec.where).None?
    requires RawFree(BatchQuery(db.schema[spec.rel.target].alias, JoinColumns(db, spec.rel).value.1, keys, spec.where))
    requires i < |before|
    requires var (batch, child) := JoinColumns(db, spec.rel).value;
             var alias := db.schema[spec.rel.target].alias;
             var fetched := Matching(db, alias, db.rows[spec.rel.target], BatchQuery(alias, child, keys, spec.where));
             && (IsZero(KeyAt(before, i, batch)) || KeyAt(before, i, batch) in keys)
             && (|loaded| == |fetched| && forall j :: 0 <= j < |fetched| ==> LoadAll(db, fetched[j], spec.nested) == Success(loaded[j]))
             && forall key :: Lookup(byKey, key) == WithKey(loaded, child, key)
    ensures Separate(db, before[i], spec) == Success(Assigned(before, i, JoinColumns(db, spec.rel).value.0, spec.rel, byKey))
  {
    hide JoinColumns, Separate, Matching, WithKey, Attach, LoadAll;
    if IsZero(KeyAt(before, i, JoinColumns(db, spec.rel).value.0)) {
      SeparateWithoutQuery(db, before[i], spec);
    } else {
      ShareOfBatch(db, before[i], spec, keys, loaded);
    }
  }

  /**
   runPreload: when it succeeds every parent holds exactly what a query of its own, and
   of each child's nested relations, would have loaded; it fails exactly when one of those
   would, and then no parent has been touched.
   */
  method RunPreload(db: Database, parents: array<Record>, spec: Spec) returns (err: Option<LoadError>)
    requires EqualityAgrees(db) && SpecOk(db, spec)
    modifies parents
    ensures err.None? ==> forall i :: 0 <= i < parents.Length ==> Separate(db, old(parents[i]), spec) == Success(parents[i])
    ensures err.Some? ==> exists i :: 0 <= i < parents.Length && Separate(db, old(parents[i]), spec).Failure?
    ensures err.Some? ==> parents[..] == old(parents[..])
    ensures err.None? ==> forall i :: 0 <= i < parents.Length ==> HoldsRelation(db, old(parents[i]), parents[i], spec)
    ensures err.Some? ==> Broken(db, spec)
    decreases spec, 0
  {
    forall r: Record
      ensures Separate(db, r, spec).Success? ==> HoldsRelation(db, r, Separate(db, r, spec).value, spec)
      ensures Separate(db, r, spec).Failure? ==> Broken(db, spec)
    {
      SeparateHolds(db, r, spec);
    }
    hide JoinColumns, Separate, Matching, WithKey, Attach, LoadAll, HoldsRelation, Broken;
    if parents.Length == 0 {
      return None;
    }
    var join := JoinColumns(db, spec.rel);
    if join.Failure? {
      SeparateWithoutQuery(db, parents[0], spec);
      return Some(join.error);
    }
    var (batch, child) := join.value;
    ghost var before := parents[..];
    var keys, places := GroupParents(parents, batch);
    if keys == [] {
      forall i | 0 <= i < parents.Length ensures Separate(db, old(parents[i]), spec) == Success(parents[i]) {
        assert before[i] == old(parents[i]) && IsZero(KeyAt(before, i, batch));
        SeparateWithoutQuery(db, before[i], spec);
      }
      return None;
    }
    ghost var first := places[keys[0]][0];
    assert first in places[keys[0]] && KeyAt(before, first, batch) == keys[0];
    if FirstError(db.dialect, spec.where).Some? {
      SeparateWithoutQuery(db, parents[first], spec);
      return Some(BadQuery(FirstError(db.dialect, spec.where).value));
    }
    var alias := db.schema[spec.rel.target].alias;
    ScopedRawFree(In(Column(alias, child), keys), spec.where);
    var fetched := Matching(db, alias, db.rows[spec.rel.target], BatchQuery(alias, child, keys, spec.where));
    var children := new Record[|fetched|](i requires 0 <= i < |fetched| => fetched[i]);
    err := RunAll(db, children, spec.nested);
    if err.Some? {
      ghost var i :| 0 <= i < |fetched| && LoadAll(db, fetched[i], spec.nested).Failure?;
      ghost var j := FailedParent(db, before, spec, keys, places, i);
      return;
    }
    ghost var loaded := children[..];
    var byKey := GroupChildren(children, child);
    AssignChildren(parents, batch, spec.rel, keys, places, byKey);
    forall i | 0 <= i < parents.Length
      ensures Separate(db, old(parents[i]), spec) == Success(parents[i])
    {
      assert before[i] == old(parents[i]) && parents[i] == Assigned(before, i, batch, spec.rel, byKey);
      AssignedIsSeparate(db, before, i, spec, keys, loaded, byKey);
    }
  }

  /** Several relations of the same rows, one after the other: Query.Find, and a preload's nested ones. */
  method RunAll(db: Database, rows: array<Record>, specs: seq<Spec>) returns (err: Option<LoadError>)
    requires EqualityAgrees(db) && forall n <- specs :: SpecOk(db, n)
    modifies rows
    ensures err.None? ==> forall i :: 0 <= i < rows.Length ==> LoadAll(db, old(rows[i]), specs) == Success(rows[i])
    ensures err.Some? ==> exists i :: 0 <= i < rows.Length && LoadAll(db, old(rows[i]), specs).Failure?
    ensures err.None? ==> forall i :: 0 <= i < rows.Length ==> HoldsAll(db, old(rows[i]), rows[i], specs)
    ensures err.Some? ==> exists n <- specs :: Broken(db, n)
    decreases specs, 1
  {
    forall r: Record
      ensures LoadAll(db, r, specs).Success? ==> HoldsAll(db, r, LoadAll(db, r, specs).value, specs)
      ensures LoadAll(db, r, specs).Failure? ==> exists n <- specs :: Broken(db, n)
    {
      LoadAllHolds(db, r, specs);
    }
    hide HoldsAll, Broken, HoldsRelation;
    err := None;
    for n := 0 to |specs|
      invariant err.None?
      invariant forall i :: 0 <= i < rows.Length ==> LoadAll(db, old(rows[i]), specs[..n]) == Success(rows[i])
    {
      label Before:
      assert specs[n] in specs && specs[..n + 1] == specs[..n] + [specs[n]];
      err := RunPreload(db, rows, specs[n]);
      forall i | 0 <= i < rows.Length
        ensures LoadAll(db, old(rows[i]), specs[..n + 1]) == Separate(db, old@Before(rows[i]), specs[n])
      {
        LoadSnoc(db, old(rows[i]), specs[..n], specs[n]);
      }
      if err.Some? {
        ghost var i :| 0 <= i < rows.Length && Separate(db, old@Before(rows[i]), specs[n]).Failure?;
        LoadPrefixFails(db, old(rows[i]), specs, n + 1);
        return;
      }
    }
    assert specs[..|specs|] == specs;
  }

  lemma {:induction false} LoadPrefixFails(db: Database, r: Record, specs: seq<Spec>, n: nat)
    requires (forall s <- specs :: SpecOk(db, s)) && n <= |specs| && LoadAll(db, r, specs[..n]).Failure?
    ensures LoadAll(db, r, specs).Failure?
    decreases n
  {
    assert specs[0] in specs && specs[..n][0] == specs[0] && specs[..n][1..] == specs[1..][..n - 1];
    if Separate(db, r, specs[0]).Success? {
      LoadPrefixFails(db, Separate(db, r, specs[0]).value, specs[1..], n - 1);
    }
  }
}
