/** Identification of schema revisions: the revision Alembic recorded, or else the revision
    inferred from the shape of an unversioned schema. */
module SchemaRevision {

  datatype Result<+T> = Ok(value: T) | Err(error: Error)

  datatype Error = MultipleHeads | UnrecordedVersion | UnknownRevision | NoApplicationSchema
                 | NewerThanRegistry | InconsistentSchema | UnrecognizedSchema

  /** What one legacy revision added: new tables and new columns of tables. */
  datatype Shape = Shape(revision: string, tables: set<string>, columns: map<string, set<string>>)

  /** The tables of a schema with their columns. */
  type Schema = map<string, set<string>>

  function ColumnsOf(columns: map<string, set<string>>, table: string): set<string> {
    if table in columns then columns[table] else {}
  }

  predicate IsComplete(shape: Shape, schema: Schema) {
    && shape.tables <= schema.Keys
    && forall t :: t in shape.columns ==> shape.columns[t] <= ColumnsOf(schema, t)
  }

  predicate IsPartiallyPresent(shape: Shape, schema: Schema) {
    || shape.tables * schema.Keys != {}
    || exists t :: t in shape.columns && shape.columns[t] * ColumnsOf(schema, t) != {}
  }

  predicate AnyPartiallyPresent(shapes: seq<Shape>, schema: Schema) {
    exists i :: 0 <= i < |shapes| && IsPartiallyPresent(shapes[i], schema)
  }

  /** How many shapes are complete, counted from the oldest. */
  function CompletePrefix(shapes: seq<Shape>, schema: Schema): (k: nat)
    ensures k <= |shapes|
    ensures forall i :: 0 <= i < k ==> IsComplete(shapes[i], schema)
    ensures k < |shapes| ==> !IsComplete(shapes[k], schema)
  {
    if shapes == [] || !IsComplete(shapes[0], schema) then 0
    else 1 + CompletePrefix(shapes[1..], schema)
  }

  function Infer(schema: Schema, shapes: seq<Shape>, markers: seq<Shape>): Result<string> {
    var k := CompletePrefix(shapes, schema);
    if AnyPartiallyPresent(markers, schema) then Err(NewerThanRegistry)
    else if AnyPartiallyPresent(shapes[k..], schema) then Err(InconsistentSchema)
    else if k == 0 then Err(UnrecognizedSchema)
    else Ok(shapes[k - 1].revision)
  }

  method InferLegacyRevision(schema: Schema, shapes: seq<Shape>, markers: seq<Shape>) returns (result: Result<string>)
    ensures result == Infer(schema, shapes, markers)
  {
    if AnyPartiallyPresent(markers, schema) {
      return Err(NewerThanRegistry);
    }
    result := Err(UnrecognizedSchema);
    var index := 0;
    while index < |shapes|
      invariant 0 <= index <= |shapes|
      invariant forall i :: 0 <= i < index ==> IsComplete(shapes[i], schema)
      invariant result == if index == 0 then Err(UnrecognizedSchema) else Ok(shapes[index - 1].revision)
      invariant index <= CompletePrefix(shapes, schema)
    {
      if IsComplete(shapes[index], schema) {
        result := Ok(shapes[index].revision);
        index := index + 1;
      } else {
        assert index == CompletePrefix(shapes, schema);
        if AnyPartiallyPresent(shapes[index..], schema) {
          return Err(InconsistentSchema);
        }
        break;
      }
    }
  }

  // ---------------------------------------------------------------------------------------
  // Names: what a shape requires and what a schema holds

  datatype Name = Table(table: string) | Column(table: string, column: string)

  function NamesOfColumns(columns: map<string, set<string>>): set<Name> {
    set t, c | t in columns && c in columns[t] :: Column(t, c)
  }

  function Required(shape: Shape): set<Name> {
    (set t | t in shape.tables :: Table(t)) + NamesOfColumns(shape.columns)
  }

  function Held(schema: Schema): set<Name> {
    (set t | t in schema :: Table(t)) + NamesOfColumns(schema)
  }

  lemma NamesRequired(shape: Shape, t: string, c: string)
    ensures Table(t) in Required(shape) <==> t in shape.tables
    ensures Column(t, c) in Required(shape) <==> t in shape.columns && c in shape.columns[t]
  {}

  lemma NamesHeld(schema: Schema, t: string, c: string)
    ensures Table(t) in Held(schema) <==> t in schema
    ensures Column(t, c) in Held(schema) <==> t in schema && c in schema[t]
  {}

  lemma CompleteIsContainment(shape: Shape, schema: Schema)
    ensures IsComplete(shape, schema) <==> Required(shape) <= Held(schema)
  {
    if IsComplete(shape, schema) {
      forall n | n in Required(shape) ensures n in Held(schema) {
        if n.Column? {
          assert n.column in ColumnsOf(schema, n.table);
        }
      }
    }
    if Required(shape) <= Held(schema) {
      forall t | t in shape.tables ensures t in schema.Keys {
        assert Table(t) in Required(shape);
      }
      forall t, c | t in shape.columns && c in shape.columns[t] ensures c in ColumnsOf(schema, t) {
        assert Column(t, c) in Required(shape);
      }
    }
  }

  lemma PartialIsOverlap(shape: Shape, schema: Schema)
    ensures IsPartiallyPresent(shape, schema) <==> Required(shape) * Held(schema) != {}
  {
    if IsPartiallyPresent(shape, schema) {
      if shape.tables * schema.Keys != {} {
        var t :| t in shape.tables * schema.Keys;
        assert Table(t) in Required(shape) * Held(schema);
      } else {
        var t :| t in shape.columns && shape.columns[t] * ColumnsOf(schema, t) != {};
        var c :| c in shape.columns[t] * ColumnsOf(schema, t);
        assert Column(t, c) in Required(shape) * Held(schema);
      }
    }
    if Required(shape) * Held(schema) != {} {
      var n :| n in Required(shape) * Held(schema);
      if n.Table? {
        assert n.table in shape.tables * schema.Keys;
      } else {
        assert n.column in shape.columns[n.table] * ColumnsOf(schema, n.table);
      }
    }
  }

  // ---------------------------------------------------------------------------------------
  // What inference claims

  /** The schema holds every name of shapes 0..k, and no name of any later shape or marker. */
  ghost predicate AtShape(schema: Schema, shapes: seq<Shape>, markers: seq<Shape>, k: nat) {
    && k < |shapes|
    && (forall i :: 0 <= i <= k ==> Required(shapes[i]) <= Held(schema))
    && (forall j :: k < j < |shapes| ==> Required(shapes[j]) * Held(schema) == {})
    && (forall m :: 0 <= m < |markers| ==> Required(markers[m]) * Held(schema) == {})
  }

  /** Every shape of the registry requires something. */
  ghost predicate NoEmptyShape(shapes: seq<Shape>) {
    forall i :: 0 <= i < |shapes| ==> Required(shapes[i]) != {}
  }

  /** At most one shape fits a schema. */
  lemma AtShapeIsUnique(schema: Schema, shapes: seq<Shape>, markers: seq<Shape>, k: nat, l: nat)
    requires NoEmptyShape(shapes)
    requires AtShape(schema, shapes, markers, k) && AtShape(schema, shapes, markers, l)
    ensures k == l
  {
    forall i | 0 <= i < |shapes| && Required(shapes[i]) <= Held(schema)
      ensures Required(shapes[i]) * Held(schema) != {}
    {
      assert Required(shapes[i]) * Held(schema) == Required(shapes[i]);
    }
    assert Required(shapes[k]) <= Held(schema) && Required(shapes[l]) <= Held(schema);
  }

  lemma NoneOverlaps(shapes: seq<Shape>, schema: Schema)
    ensures !AnyPartiallyPresent(shapes, schema) <==> forall i :: 0 <= i < |shapes| ==> Required(shapes[i]) * Held(schema) == {}
  {
    forall i | 0 <= i < |shapes|
      ensures !IsPartiallyPresent(shapes[i], schema) <==> Required(shapes[i]) * Held(schema) == {}
    {
      PartialIsOverlap(shapes[i], schema);
    }
    if !AnyPartiallyPresent(shapes, schema) {
      assert forall i :: 0 <= i < |shapes| ==> !IsPartiallyPresent(shapes[i], schema);
    }
  }

  /** Sound: an inferred revision is that of a shape the schema is exactly at. */
  lemma InferenceIsSound(schema: Schema, shapes: seq<Shape>, markers: seq<Shape>) returns (k: nat)
    requires Infer(schema, shapes, markers).Ok?
    ensures AtShape(schema, shapes, markers, k)
    ensures Infer(schema, shapes, markers) == Ok(shapes[k].revision)
  {
    var n := CompletePrefix(shapes, schema);
    k := n - 1;
    NoneOverlaps(markers, schema);
    NoneOverlaps(shapes[n..], schema);
    forall i | 0 <= i <= k ensures Required(shapes[i]) <= Held(schema) {
      CompleteIsContainment(shapes[i], schema);
    }
    forall j | k < j < |shapes| ensures Required(shapes[j]) * Held(schema) == {} {
      assert shapes[j] == shapes[n..][j - n];
    }
  }

  /** Complete: a schema that is at a shape is recognised as that shape. */
  lemma InferenceIsComplete(schema: Schema, shapes: seq<Shape>, markers: seq<Shape>, k: nat)
    requires NoEmptyShape(shapes) && AtShape(schema, shapes, markers, k)
    ensures Infer(schema, shapes, markers) == Ok(shapes[k].revision)
  {
    var n := CompletePrefix(shapes, schema);
    forall i | 0 <= i < |shapes| ensures IsComplete(shapes[i], schema) <==> i <= k {
      CompleteIsContainment(shapes[i], schema);
    }
    assert n < |shapes| ==> !IsComplete(shapes[n], schema);
    assert n == 0 || IsComplete(shapes[n - 1], schema);
    assert n == k + 1;
    NoneOverlaps(markers, schema);
    NoneOverlaps(shapes[n..], schema);
  }

  /** Every schema that is not exactly at some shape, partial and mixed ones included, is rejected. */
  lemma RejectedIffAtNoShape(schema: Schema, shapes: seq<Shape>, markers: seq<Shape>)
    requires NoEmptyShape(shapes)
    ensures Infer(schema, shapes, markers).Err? <==> forall k :: !AtShape(schema, shapes, markers, k)
  {
    if Infer(schema, shapes, markers).Ok? {
      var k := InferenceIsSound(schema, shapes, markers);
    }
    forall k | AtShape(schema, shapes, markers, k) ensures Infer(schema, shapes, markers).Ok? {
      InferenceIsComplete(schema, shapes, markers, k);
    }
  }

  // ---------------------------------------------------------------------------------------
  // Registries whose shapes introduce only new names

  ghost predicate IntroducesOnlyNewNames(shapes: seq<Shape>, markers: seq<Shape>) {
    && (forall i, j :: 0 <= i < j < |shapes| ==> Required(shapes[i]) !! Required(shapes[j]))
    && (forall i, m :: 0 <= i < |shapes| && 0 <= m < |markers| ==> Required(shapes[i]) !! Required(markers[m]))
  }

  function Extend(schema: Schema, shape: Shape): Schema {
    map t | t in schema.Keys + shape.tables + shape.columns.Keys ::
      ColumnsOf(schema, t) + ColumnsOf(shape.columns, t)
  }

  /** The schema after applying shapes 0..k in order to an empty database. */
  function Accumulated(shapes: seq<Shape>, k: nat): Schema
    requires k < |shapes|
  {
    Extend(if k == 0 then map[] else Accumulated(shapes, k - 1), shapes[k])
  }

  /** The tables whose columns a shape names. */
  function Touched(shape: Shape): set<Name> { set t | t in shape.columns :: Table(t) }

  lemma ExtendHolds(schema: Schema, shape: Shape)
    ensures Held(Extend(schema, shape)) == Held(schema) + Required(shape) + Touched(shape)
  {
    var all := Held(schema) + Required(shape) + Touched(shape);
    forall n ensures n in Held(Extend(schema, shape)) <==> n in all {
      if n.Column? {
        assert n in Held(Extend(schema, shape)) <==>
               n.table in Extend(schema, shape) && n.column in ColumnsOf(schema, n.table) + ColumnsOf(shape.columns, n.table);
      }
    }
  }

  /** Everything shapes 0..k require. */
  function RequiredUpto(shapes: seq<Shape>, k: nat): set<Name>
    requires k < |shapes|
  {
    if k == 0 then Required(shapes[0]) else RequiredUpto(shapes, k - 1) + Required(shapes[k])
  }

  /** Columns are only added to tables that this or an earlier shape created. */
  ghost predicate ColumnsOnKnownTables(shapes: seq<Shape>) {
    forall i {:trigger Touched(shapes[i])} :: 0 <= i < |shapes| ==> Touched(shapes[i]) <= RequiredUpto(shapes, i)
  }

  lemma {:induction false} RequiredUptoContains(shapes: seq<Shape>, k: nat, i: nat)
    requires i <= k < |shapes|
    ensures Required(shapes[i]) <= RequiredUpto(shapes, k)
  {
    if i < k {
      RequiredUptoContains(shapes, k - 1, i);
    }
  }

  lemma {:induction false} RequiredUptoIsNew(shapes: seq<Shape>, k: nat, others: set<Name>)
    requires k < |shapes|
    requires forall i :: 0 <= i <= k ==> Required(shapes[i]) !! others
    ensures others * RequiredUpto(shapes, k) == {}
  {
    if k > 0 {
      RequiredUptoIsNew(shapes, k - 1, others);
    }
  }

  lemma NextShapeHolds(shapes: seq<Shape>, k: nat)
    requires 0 < k < |shapes|
    ensures Held(Accumulated(shapes, k)) == Held(Accumulated(shapes, k - 1)) + Required(shapes[k]) + Touched(shapes[k])
  {
    ExtendHolds(Accumulated(shapes, k - 1), shapes[k]);
  }

  lemma NothingElseAdded(held: set<Name>, before: set<Name>, required: set<Name>, touched: set<Name>)
    requires touched <= before + required
    requires held == before + required + touched
    ensures held == before + required
  {}

  lemma HoldsAfterNext(shapes: seq<Shape>, k: nat, before: set<Name>)
    requires 0 < k < |shapes| && Held(Accumulated(shapes, k - 1)) == before
    requires Touched(shapes[k]) <= before + Required(shapes[k])
    ensures Held(Accumulated(shapes, k)) == before + Required(shapes[k])
  {
    NextShapeHolds(shapes, k);
    NothingElseAdded(Held(Accumulated(shapes, k)), before, Required(shapes[k]), Touched(shapes[k]));
  }

  lemma {:induction false} AccumulatedHolds(shapes: seq<Shape>, k: nat)
    requires k < |shapes| && ColumnsOnKnownTables(shapes)
    ensures Held(Accumulated(shapes, k)) == RequiredUpto(shapes, k)
  {
    if k == 0 {
      NothingElseAdded(Held(Accumulated(shapes, 0)), {}, Required(shapes[0]), Touched(shapes[0]));
    } else {
      AccumulatedHolds(shapes, k - 1);
      HoldsAfterNext(shapes, k, RequiredUpto(shapes, k - 1));
    }
  }

  /** Round trip: the schema the first k + 1 revisions build is inferred as revision k. */
  lemma AccumulatedIsInferred(shapes: seq<Shape>, markers: seq<Shape>, k: nat)
    requires k < |shapes| && NoEmptyShape(shapes)
    requires IntroducesOnlyNewNames(shapes, markers) && ColumnsOnKnownTables(shapes)
    ensures Infer(Accumulated(shapes, k), shapes, markers) == Ok(shapes[k].revision)
  {
    var schema := Accumulated(shapes, k);
    AccumulatedHolds(shapes, k);
    forall i | 0 <= i <= k ensures Required(shapes[i]) <= Held(schema) {
      RequiredUptoContains(shapes, k, i);
    }
    forall j | k < j < |shapes| ensures Required(shapes[j]) * Held(schema) == {} {
      RequiredUptoIsNew(shapes, k, Required(shapes[j]));
    }
    forall m | 0 <= m < |markers| ensures Required(markers[m]) * Held(schema) == {} {
      RequiredUptoIsNew(shapes, k, Required(markers[m]));
    }
    InferenceIsComplete(schema, shapes, markers, k);
  }

  // ---------------------------------------------------------------------------------------
  // Identification of a database

  datatype Kind = Alembic | RecognizedLegacy

  datatype Identity = Identity(revision: string, kind: Kind)

  /** A database: its tables with their columns, and the revisions recorded by Alembic. */
  datatype Database = Database(schema: Schema, heads: seq<string>)
  {
    predicate HasVersionTable() { VERSION_TABLE in schema }
    predicate HasApplicationSchema() { schema.Keys - {VERSION_TABLE} != {} }
  }

  const VERSION_TABLE := "alembic_version"

  datatype Registry = Registry(shapes: seq<Shape>, markers: seq<Shape>)

  function Identify(db: Database, known: set<string>, registry: Registry): Result<Identity> {
    if |db.heads| > 1 then Err(MultipleHeads)
    else if db.HasVersionTable() && db.heads == [] then Err(UnrecordedVersion)
    else if db.heads != [] then
      if db.heads[0] in known then Ok(Identity(db.heads[0], Alembic)) else Err(UnknownRevision)
    else if !db.HasApplicationSchema() then Err(NoApplicationSchema)
    else match Infer(db.schema, registry.shapes, registry.markers)
      case Ok(revision) => Ok(Identity(revision, RecognizedLegacy))
      case Err(e) => Err(e)
  }

  lemma IdentifiedByRecord(db: Database, known: set<string>, registry: Registry, r: string)
    ensures Identify(db, known, registry) == Ok(Identity(r, Alembic)) <==> db.heads == [r] && r in known
  {}

  /** When a database is identified, and as what: by the one revision it records, or, without a version
      table, by the one shape it is at. */
  lemma IdentifiedIff(db: Database, known: set<string>, registry: Registry, r: string)
    requires NoEmptyShape(registry.shapes)
    ensures Identify(db, known, registry) == Ok(Identity(r, Alembic)) <==> db.heads == [r] && r in known
    ensures Identify(db, known, registry) == Ok(Identity(r, RecognizedLegacy)) <==>
              db.heads == [] && "alembic_version" !in db.schema
              && exists k: nat :: AtShape(db.schema, registry.shapes, registry.markers, k) && registry.shapes[k].revision == r
  {
    var schema, shapes, markers := db.schema, registry.shapes, registry.markers;
    if Infer(schema, shapes, markers) == Ok(r) {
      var k := InferenceIsSound(schema, shapes, markers);
    }
    forall k: nat | AtShape(schema, shapes, markers, k)
      ensures Infer(schema, shapes, markers) == Ok(shapes[k].revision) && schema.Keys != {}
    {
      InferenceIsComplete(schema, shapes, markers, k);
      ShapeHasTables(schema, shapes[k]);
    }
  }

  lemma ShapeHasTables(schema: Schema, shape: Shape)
    requires Required(shape) != {} && Required(shape) <= Held(schema)
    ensures schema.Keys != {}
  {
    var n :| n in Required(shape);
    assert n in Held(schema);
    assert n.table in schema;
  }
}
