/**
 Creating applications in bulk.  Save runs a chain of mutators, one a builder:
 each checks its builder, fills its place in the lists of specs and nodes and
 calls the next; the last one hands all specs to the database in one batch; and
 on the way back each takes its id from its spec.
 */
module BulkCreate {
  import opened Wrappers

  /** The fields of an ApplicationMutation; None is an unset field, and the sets hold the children to attach. */
  datatype Fields = Fields(
    name: Option<string>,
    status: Option<string>,
    createdAt: Option<int>,
    startedAt: Option<int>,
    updatedAt: Option<int>,
    scenario: Option<string>,
    gomod: Option<string>,
    gosum: Option<string>,
    groups: set<int>,
    tags: set<int>)

  datatype Value = Text(text: string) | Time(time: int)

  datatype ColumnName =
    | FieldName | FieldStatus | FieldCreatedAt | FieldStartedAt | FieldUpdatedAt
    | FieldScenario | FieldGomod | FieldGosum

  datatype Column = Column(name: ColumnName, value: Value)

  datatype EdgeName = EdgeGroups | EdgeTags

  /** An edge of the spec; the order of the target nodes is that of a map iteration. */
  datatype Edge = Edge(name: EdgeName, targets: set<int>)

  /** What an insert writes for one builder. */
  datatype Row = Row(columns: seq<Column>, edges: seq<Edge>)

  datatype CreateSpec = CreateSpec(row: Row, id: Option<int>)

  /** The entity handed back; unset fields have the zero value of their type. */
  datatype Application = Application(
    id: int, name: string, status: string, createdAt: int, startedAt: int, updatedAt: int,
    scenario: string, gomod: string, gosum: string)

  datatype CreateError = MissingField(field: ColumnName) | DatabaseFailed

  function Or<T>(o: Option<T>, default: T): T {
    if o.Some? then o.value else default
  }

  function Defaulted(f: Fields, now: int): Fields {
    f.(createdAt := Some(Or(f.createdAt, now)), updatedAt := Some(Or(f.updatedAt, now)),
       gomod := Some(Or(f.gomod, "")), gosum := Some(Or(f.gosum, "")))
  }

  /** check: the first required field that is missing. */
  function Check(f: Fields): Option<CreateError> {
    if f.name.None? then Some(MissingField(FieldName))
    else if f.status.None? then Some(MissingField(FieldStatus))
    else if f.createdAt.None? then Some(MissingField(FieldCreatedAt))
    else if f.updatedAt.None? then Some(MissingField(FieldUpdatedAt))
    else if f.scenario.None? then Some(MissingField(FieldScenario))
    else if f.gomod.None? then Some(MissingField(FieldGomod))
    else if f.gosum.None? then Some(MissingField(FieldGosum))
    else None
  }

  /** The error is about the first field, in the schema's order, that is required and missing. */
  lemma CheckNamesTheField(f: Fields)
    ensures f.name.None? ==> Check(f) == Some(MissingField(FieldName))
    ensures f.name.Some? && f.status.None? ==> Check(f) == Some(MissingField(FieldStatus))
    ensures f.name.Some? && f.status.Some? && f.createdAt.None? ==> Check(f) == Some(MissingField(FieldCreatedAt))
    ensures f.name.Some? && f.status.Some? && f.createdAt.Some? ==>
              && (f.updatedAt.None? ==> Check(f) == Some(MissingField(FieldUpdatedAt)))
              && (f.updatedAt.Some? && f.scenario.None? ==> Check(f) == Some(MissingField(FieldScenario)))
              && (f.updatedAt.Some? && f.scenario.Some? && f.gomod.None? ==>
                    Check(f) == Some(MissingField(FieldGomod)))
              && (f.updatedAt.Some? && f.scenario.Some? && f.gomod.Some? && f.gosum.None? ==>
                    Check(f) == Some(MissingField(FieldGosum)))
              && (f.updatedAt.Some? && f.scenario.Some? && f.gomod.Some? && f.gosum.Some? ==> Check(f) == None)
  {
  }

  /** After defaults a builder passes check if and only if the three fields without a default are set. */
  lemma DefaultedPassesIff(f: Fields, now: int)
    ensures Check(Defaulted(f, now)).None? <==> f.name.Some? && f.status.Some? && f.scenario.Some?
    ensures f.createdAt.Some? ==> Defaulted(f, now).createdAt == f.createdAt
    ensures f.gomod.Some? ==> Defaulted(f, now).gomod == f.gomod
    ensures Defaulted(Defaulted(f, now), now) == Defaulted(f, now)
  {
  }

  function TextColumn(name: ColumnName, o: Option<string>): seq<Column> {
    if o.Some? then [Column(name, Text(o.value))] else []
  }

  function TimeColumn(name: ColumnName, o: Option<int>): seq<Column> {
    if o.Some? then [Column(name, Time(o.value))] else []
  }

  /** The columns createSpec writes, in its order. */
  function ColumnsOf(f: Fields): seq<Column> {
    [] + TextColumn(FieldName, f.name) + TextColumn(FieldStatus, f.status) + TimeColumn(FieldCreatedAt, f.createdAt)
      + TimeColumn(FieldStartedAt, f.startedAt) + TimeColumn(FieldUpdatedAt, f.updatedAt)
      + TextColumn(FieldScenario, f.scenario) + TextColumn(FieldGomod, f.gomod) + TextColumn(FieldGosum, f.gosum)
  }

  function EdgeTo(name: EdgeName, targets: set<int>): seq<Edge> {
    if targets != {} then [Edge(name, targets)] else []
  }

  function RowOf(f: Fields): Row {
    Row(ColumnsOf(f), EdgeTo(EdgeGroups, f.groups) + EdgeTo(EdgeTags, f.tags))
  }

  function EntityOf(f: Fields): Application {
    Application(0, Or(f.name, ""), Or(f.status, ""), Or(f.createdAt, 0), Or(f.startedAt, 0), Or(f.updatedAt, 0),
                Or(f.scenario, ""), Or(f.gomod, ""), Or(f.gosum, ""))
  }

  /** What a stored row reads as: the last value of a column, or the zero value. */
  function ValueIn(columns: seq<Column>, name: ColumnName): Option<Value> {
    if columns == [] then None
    else if columns[|columns| - 1].name == name then Some(columns[|columns| - 1].value)
    else ValueIn(columns[..|columns| - 1], name)
  }

  function TextIn(columns: seq<Column>, name: ColumnName): string {
    var v := ValueIn(columns, name);
    if v.Some? && v.value.Text? then v.value.text else ""
  }

  function TimeIn(columns: seq<Column>, name: ColumnName): int {
    var v := ValueIn(columns, name);
    if v.Some? && v.value.Time? then v.value.time else 0
  }

  function ReadBack(row: Row, id: int): Application {
    var columns := row.columns;
    Application(id, TextIn(columns, FieldName), TextIn(columns, FieldStatus), TimeIn(columns, FieldCreatedAt),
                TimeIn(columns, FieldStartedAt), TimeIn(columns, FieldUpdatedAt), TextIn(columns, FieldScenario),
                TextIn(columns, FieldGomod), TextIn(columns, FieldGosum))
  }

  lemma ValueInText(columns: seq<Column>, name: ColumnName, o: Option<string>, c: ColumnName)
    ensures ValueIn(columns + TextColumn(name, o), c) ==
            if c == name && o.Some? then Some(Text(o.value)) else ValueIn(columns, c)
  {
    if o.Some? {
      assert (columns + TextColumn(name, o))[..|columns|] == columns;
    } else {
      assert columns + TextColumn(name, o) == columns;
    }
  }

  lemma ValueInTime(columns: seq<Column>, name: ColumnName, o: Option<int>, c: ColumnName)
    ensures ValueIn(columns + TimeColumn(name, o), c) ==
            if c == name && o.Some? then Some(Time(o.value)) else ValueIn(columns, c)
  {
    if o.Some? {
      assert (columns + TimeColumn(name, o))[..|columns|] == columns;
    } else {
      assert columns + TimeColumn(name, o) == columns;
    }
  }

  function AsText(o: Option<string>): Option<Value> {
    if o.Some? then Some(Text(o.value)) else None
  }

  function AsTime(o: Option<int>): Option<Value> {
    if o.Some? then Some(Time(o.value)) else None
  }

  /** The value a builder has for a column. */
  function FieldOf(f: Fields, c: ColumnName): Option<Value> {
    match c
    case FieldName => AsText(f.name)
    case FieldStatus => AsText(f.status)
    case FieldCreatedAt => AsTime(f.createdAt)
    case FieldStartedAt => AsTime(f.startedAt)
    case FieldUpdatedAt => AsTime(f.updatedAt)
    case FieldScenario => AsText(f.scenario)
    case FieldGomod => AsText(f.gomod)
    case FieldGosum => AsText(f.gosum)
  }

  /** Every column of the spec is there exactly when its field is set, with the field's value. */
  lemma ColumnsHoldFields(f: Fields, c: ColumnName)
    ensures ValueIn(ColumnsOf(f), c) == FieldOf(f, c)
  {
    var c1 := [] + TextColumn(FieldName, f.name);
    var c2 := c1 + TextColumn(FieldStatus, f.status);
    var c3 := c2 + TimeColumn(FieldCreatedAt, f.createdAt);
    var c4 := c3 + TimeColumn(FieldStartedAt, f.startedAt);
    var c5 := c4 + TimeColumn(FieldUpdatedAt, f.updatedAt);
    var c6 := c5 + TextColumn(FieldScenario, f.scenario);
    var c7 := c6 + TextColumn(FieldGomod, f.gomod);
    ValueInText([], FieldName, f.name, c);
    ValueInText(c1, FieldStatus, f.status, c);
    ValueInTime(c2, FieldCreatedAt, f.createdAt, c);
    ValueInTime(c3, FieldStartedAt, f.startedAt, c);
    ValueInTime(c4, FieldUpdatedAt, f.updatedAt, c);
    ValueInText(c5, FieldScenario, f.scenario, c);
    ValueInText(c6, FieldGomod, f.gomod, c);
    ValueInText(c7, FieldGosum, f.gosum, c);
  }

  /** The row stored for a builder reads back as the entity handed to its caller. */
  lemma StoredIsReturned(f: Fields, id: int)
    ensures ReadBack(RowOf(f), id) == EntityOf(f).(id := id)
  {
    ColumnsHoldFields(f, FieldName);
    ColumnsHoldFields(f, FieldStatus);
    ColumnsHoldFields(f, FieldCreatedAt);
    ColumnsHoldFields(f, FieldStartedAt);
    ColumnsHoldFields(f, FieldUpdatedAt);
    ColumnsHoldFields(f, FieldScenario);
    ColumnsHoldFields(f, FieldGomod);
    ColumnsHoldFields(f, FieldGosum);
  }

  function Children(f: Fields, name: EdgeName): set<int> {
    match name
    case EdgeGroups => f.groups
    case EdgeTags => f.tags
  }

  /** The row with this id holds what the builder was given: it reads back as the builder's
      entity, and exactly the edges with children are there, with these children. */
  ghost predicate Stores(rows: map<int, Row>, id: int, f: Fields) {
    && id in rows
    && ReadBack(rows[id], id) == EntityOf(f).(id := id)
    && forall e :: e in rows[id].edges <==> e.targets != {} && e.targets == Children(f, e.name)
  }

  lemma RowStores(rows: map<int, Row>, id: int, f: Fields)
    requires id in rows && rows[id] == RowOf(f)
    ensures Stores(rows, id, f)
  {
    StoredIsReturned(f, id);
    forall e ensures e in RowOf(f).edges <==> e.targets != {} && e.targets == Children(f, e.name) {
      EdgeIsThereIff(f, e);
    }
  }

  lemma EdgeIsThereIff(f: Fields, e: Edge)
    ensures e in RowOf(f).edges <==> e.targets != {} && e.targets == Children(f, e.name)
  {
    var groups, tags := EdgeTo(EdgeGroups, f.groups), EdgeTo(EdgeTags, f.tags);
    assert e in groups + tags <==> e in groups || e in tags;
    assert e == Edge(e.name, e.targets);
  }

  // ---------- What becomes of a builder's fields ----------

  /** The node has the fields the builder was given, and the defaults for the four that have one. */
  predicate NodeIs(n: Application, f: Fields, now: int, id: int) {
    && n.id == id
    && n.name == (if f.name.Some? then f.name.value else "")
    && n.status == (if f.status.Some? then f.status.value else "")
    && n.createdAt == (if f.createdAt.Some? then f.createdAt.value else now)
    && n.startedAt == (if f.startedAt.Some? then f.startedAt.value else 0)
    && n.updatedAt == (if f.updatedAt.Some? then f.updatedAt.value else now)
    && n.scenario == (if f.scenario.Some? then f.scenario.value else "")
    && n.gomod == (if f.gomod.Some? then f.gomod.value else "")
    && n.gosum == (if f.gosum.Some? then f.gosum.value else "")
  }

  /** The row has them too, column by column, and exactly the edges that have children. */
  ghost predicate RowIs(row: Row, f: Fields, now: int) {
    && ValueIn(row.columns, FieldName) == (if f.name.Some? then Some(Text(f.name.value)) else None)
    && ValueIn(row.columns, FieldStatus) == (if f.status.Some? then Some(Text(f.status.value)) else None)
    && ValueIn(row.columns, FieldCreatedAt) == Some(Time(if f.createdAt.Some? then f.createdAt.value else now))
    && ValueIn(row.columns, FieldStartedAt) == (if f.startedAt.Some? then Some(Time(f.startedAt.value)) else None)
    && ValueIn(row.columns, FieldUpdatedAt) == Some(Time(if f.updatedAt.Some? then f.updatedAt.value else now))
    && ValueIn(row.columns, FieldScenario) == (if f.scenario.Some? then Some(Text(f.scenario.value)) else None)
    && ValueIn(row.columns, FieldGomod) == Some(Text(if f.gomod.Some? then f.gomod.value else ""))
    && ValueIn(row.columns, FieldGosum) == Some(Text(if f.gosum.Some? then f.gosum.value else ""))
    && forall e :: e in row.edges <==>
         e.targets != {} && e.targets == (if e.name.EdgeGroups? then f.groups else f.tags)
  }

  lemma NodeHoldsFields(f: Fields, now: int, id: int)
    ensures NodeIs(EntityOf(Defaulted(f, now)).(id := id), f, now, id)
  {
  }

  lemma RowHoldsFields(f: Fields, now: int)
    ensures RowIs(RowOf(Defaulted(f, now)), f, now)
  {
    var d := Defaulted(f, now);
    ColumnsHoldFields(d, FieldName);
    ColumnsHoldFields(d, FieldStatus);
    ColumnsHoldFields(d, FieldCreatedAt);
    ColumnsHoldFields(d, FieldStartedAt);
    ColumnsHoldFields(d, FieldUpdatedAt);
    ColumnsHoldFields(d, FieldScenario);
    ColumnsHoldFields(d, FieldGomod);
    ColumnsHoldFields(d, FieldGosum);
    forall e ensures e in RowOf(d).edges <==>
                     e.targets != {} && e.targets == (if e.name.EdgeGroups? then f.groups else f.tags)
    {
      EdgeIsThereIff(d, e);
    }
  }

  // ---------- The builders and the database ----------

  class Builder {
    var fields: Fields

    constructor (f: Fields)
      ensures fields == f
    {
      fields := f;
    }

    method SetDefaults(now: int)
      modifies this
      ensures fields == Defaulted(old(fields), now)
      ensures fields == old(fields).(
                createdAt := if old(fields).createdAt.Some? then old(fields).createdAt else Some(now),
                updatedAt := if old(fields).updatedAt.Some? then old(fields).updatedAt else Some(now),
                gomod := if old(fields).gomod.Some? then old(fields).gomod else Some(""),
                gosum := if old(fields).gosum.Some? then old(fields).gosum else Some(""))
    {
      if fields.createdAt.None? {
        fields := fields.(createdAt := Some(now));
      }
      if fields.updatedAt.None? {
        fields := fields.(updatedAt := Some(now));
      }
      if fields.gomod.None? {
        fields := fields.(gomod := Some(""));
      }
      if fields.gosum.None? {
        fields := fields.(gosum := Some(""));
      }
    }

    /** createSpec: the columns of the spec and the entity, field by field. */
    method MakeSpec() returns (node: Application, spec: CreateSpec)
      ensures spec == CreateSpec(RowOf(fields), None) && node == EntityOf(fields)
    {
      var cs, name, status, scenario, gomod, gosum;
      var createdAt, startedAt, updatedAt;
      cs, name := AppendText([], FieldName, fields.name);
      cs, status := AppendText(cs, FieldStatus, fields.status);
      cs, createdAt := AppendTime(cs, FieldCreatedAt, fields.createdAt);
      cs, startedAt := AppendTime(cs, FieldStartedAt, fields.startedAt);
      cs, updatedAt := AppendTime(cs, FieldUpdatedAt, fields.updatedAt);
      cs, scenario := AppendText(cs, FieldScenario, fields.scenario);
      cs, gomod := AppendText(cs, FieldGomod, fields.gomod);
      cs, gosum := AppendText(cs, FieldGosum, fields.gosum);
      node := Application(0, name, status, createdAt, startedAt, updatedAt, scenario, gomod, gosum);
      var edges := [];
      if fields.groups != {} {
        edges := edges + [Edge(EdgeGroups, fields.groups)];
      }
      if fields.tags != {} {
        edges := edges + [Edge(EdgeTags, fields.tags)];
      }
      spec := CreateSpec(Row(cs, edges), None);
    }
  }

  /** One `if value, ok := ...` of createSpec: the appended column and what goes into the entity. */
  method AppendText(cs: seq<Column>, name: ColumnName, o: Option<string>) returns (cs': seq<Column>, text: string)
    ensures cs' == cs + TextColumn(name, o) && text == Or(o, "")
  {
    cs', text := cs, "";
    if o.Some? {
      cs', text := cs + [Column(name, Text(o.value))], o.value;
    }
  }

  method AppendTime(cs: seq<Column>, name: ColumnName, o: Option<int>) returns (cs': seq<Column>, time: int)
    ensures cs' == cs + TimeColumn(name, o) && time == Or(o, 0)
  {
    cs', time := cs, 0;
    if o.Some? {
      cs', time := cs + [Column(name, Time(o.value))], o.value;
    }
  }

  class Database {
    var rows: map<int, Row>
    var nextId: int
    var batches: nat         // how often BatchCreate was called

    constructor ()
      ensures Valid() && rows == map[] && nextId == 1 && batches == 0
    {
      rows, nextId, batches := map[], 1, 0;
    }

    /** Ids are not given out twice. */
    ghost predicate Valid()
      reads this
    {
      forall id | id in rows :: id < nextId
    }

    /** One insert of all specs, which get their ids in order, or of none of them. */
    method BatchCreate(specs: array<CreateSpec>, fails: bool) returns (ok: bool)
      requires Valid()
      modifies this, specs
      ensures Valid()
      ensures batches == old(batches) + 1 && ok == !fails
      ensures !ok ==> rows == old(rows) && nextId == old(nextId) && specs[..] == old(specs[..])
      ensures ok ==> nextId == old(nextId) + specs.Length
      ensures ok ==> forall i | 0 <= i < specs.Length :: specs[i] == old(specs[i]).(id := Some(old(nextId) + i))
      ensures ok ==> rows == Inserted(old(rows), old(specs[..]), old(nextId))
    {
      batches := batches + 1;
      ok := !fails;
      if ok {
        InsertedRows(rows, specs[..], nextId);
        InsertAll(specs);
      }
    }

    method InsertAll(specs: array<CreateSpec>)
      modifies this`rows, this`nextId, specs
      ensures nextId == old(nextId) + specs.Length
      ensures forall i | 0 <= i < specs.Length :: specs[i] == old(specs[i]).(id := Some(old(nextId) + i))
      ensures rows == Inserted(old(rows), old(specs[..]), old(nextId))
    {
      ghost var before := specs[..];
      for i := 0 to specs.Length
        invariant nextId == old(nextId) + i
        invariant forall k | 0 <= k < i :: specs[k] == before[k].(id := Some(old(nextId) + k))
        invariant forall k | i <= k < specs.Length :: specs[k] == before[k]
        invariant rows == Inserted(old(rows), before[..i], old(nextId))
      {
        assert before[..i + 1][..i] == before[..i];
        rows := rows[nextId := specs[i].row];
        specs[i] := specs[i].(id := Some(nextId));
        nextId := nextId + 1;
      }
      assert before[..specs.Length] == before;
    }
  }

  /** The table after a batch with these specs when `first` is the next id. */
  function Inserted(rows: map<int, Row>, specs: seq<CreateSpec>, first: int): map<int, Row> {
    if specs == [] then rows
    else Inserted(rows, specs[..|specs| - 1], first)[first + |specs| - 1 := specs[|specs| - 1].row]
  }

  /** Spec i of a batch whose first id is `first` has become the row with its id. */
  predicate RowAt(after: map<int, Row>, specs: seq<CreateSpec>, first: int, i: int)
    requires 0 <= i < |specs|
  {
    first + i in after && after[first + i] == specs[i].row
  }

  /** The table `after` has the old rows, and those of the batch from id `first` on. */
  ghost predicate HasBatch(after: map<int, Row>, rows: map<int, Row>, specs: seq<CreateSpec>, first: int) {
    && (forall id | id in after :: id < first + |specs|)
    && (forall id | id in rows :: id in after && after[id] == rows[id])
    && (forall i | 0 <= i < |specs| :: RowAt(after, specs, first, i))
    && |after| == |rows| + |specs|
  }

  lemma RowStays(after: map<int, Row>, specs: seq<CreateSpec>, first: int, i: int)
    requires 0 <= i < |specs| && (i < |specs| - 1 ==> RowAt(after, specs[..|specs| - 1], first, i))
    ensures RowAt(after[first + |specs| - 1 := specs[|specs| - 1].row], specs, first, i)
  {
  }

  lemma OneRowMore(after: map<int, Row>, rows: map<int, Row>, specs: seq<CreateSpec>, first: int)
    requires forall id | id in rows :: id < first
    requires specs != [] && HasBatch(after, rows, specs[..|specs| - 1], first)
    ensures HasBatch(after[first + |specs| - 1 := specs[|specs| - 1].row], rows, specs, first)
  {
    var n := |specs| - 1;
    var after' := after[first + n := specs[n].row];
    assert |after'| == |after| + 1;
    forall i | 0 <= i < |specs| ensures RowAt(after', specs, first, i) {
      RowStays(after, specs, first, i);
    }
  }

  lemma {:induction false} InsertedRows(rows: map<int, Row>, specs: seq<CreateSpec>, first: int)
    requires forall id | id in rows :: id < first
    ensures HasBatch(Inserted(rows, specs, first), rows, specs, first)
  {
    if specs != [] {
      InsertedRows(rows, specs[..|specs| - 1], first);
      OneRowMore(Inserted(rows, specs[..|specs| - 1], first), rows, specs, first);
    }
  }

  // ---------- The chain ----------

  /** The first error that check reports from builder i on. */
  function FirstError(fs: seq<Fields>, i: nat): Option<CreateError>
    requires i <= |fs|
    decreases |fs| - i
  {
    if i == |fs| then None
    else if Check(fs[i]).Some? then Check(fs[i])
    else FirstError(fs, i + 1)
  }

  lemma {:induction false} FirstErrorIsFirst(fs: seq<Fields>, i: nat)
    requires i <= |fs|
    ensures FirstError(fs, i).None? <==> forall k | i <= k < |fs| :: Check(fs[k]).None?
    ensures FirstError(fs, i).Some? ==>
              exists k | i <= k < |fs| :: FirstError(fs, i) == Check(fs[k])
                                          && forall j | i <= j < k :: Check(fs[j]).None?
    decreases |fs| - i
  {
    if i < |fs| {
      FirstErrorIsFirst(fs, i + 1);
    }
  }

  function SpecsOf(fs: seq<Fields>): seq<CreateSpec> {
    seq(|fs|, i requires 0 <= i < |fs| => CreateSpec(RowOf(fs[i]), None))
  }

  /** What the chain leaves in the database when it is entered with nothing inserted. */
  ghost predicate Outcome(err: Option<CreateError>, fs: seq<Fields>, i: nat, fails: bool, calls: nat,
                          before: map<int, Row>, first: int, after: map<int, Row>)
    requires i <= |fs|
  {
    && (FirstError(fs, i).Some? ==> err == FirstError(fs, i) && calls == 0)
    && (FirstError(fs, i).None? ==> err == (if fails then Some(DatabaseFailed) else None) && calls == 1)
    && after == if err.None? then Inserted(before, SpecsOf(fs), first) else before
  }

  /** The builders have the fields fs. */
  ghost predicate Hold(builders: seq<Builder>, fs: seq<Fields>)
    reads builders
  {
    |fs| == |builders| && forall i | 0 <= i < |builders| :: builders[i].fields == fs[i]
  }

  /** The specs carry consecutive ids from `first`. */
  ghost predicate Numbered(specs: seq<CreateSpec>, first: int) {
    forall k | 0 <= k < |specs| :: specs[k].id == Some(first + k)
  }

  /** From builder i on, every node is the entity of its builder with its id. */
  ghost predicate Made(nodes: seq<Application>, fs: seq<Fields>, i: nat, first: int)
    requires |nodes| == |fs|
  {
    forall k | i <= k < |nodes| :: nodes[k] == EntityOf(fs[k]).(id := first + k)
  }

  /** createSpec of builder i, stored into its places. */
  method Fill(builders: seq<Builder>, i: nat, specs: array<CreateSpec>, nodes: array<Application>,
              ghost fs: seq<Fields>)
    requires i < |builders| == specs.Length == nodes.Length && Hold(builders, fs)
    requires specs[..i] == SpecsOf(fs)[..i]
    modifies specs, nodes
    ensures specs[..i + 1] == SpecsOf(fs)[..i + 1]
    ensures nodes[i] == EntityOf(fs[i])
    ensures forall k | 0 <= k < nodes.Length && k != i :: nodes[k] == old(nodes[k])
  {
    nodes[i], specs[i] := builders[i].MakeSpec();
    assert specs[..i] == SpecsOf(fs)[..i];
  }

  /** The last mutator's call of the database. */
  method Commit(specs: array<CreateSpec>, db: Database, fails: bool, ghost fs: seq<Fields>)
    returns (err: Option<CreateError>)
    requires specs[..specs.Length] == SpecsOf(fs) && db.Valid()
    modifies specs, db
    ensures db.Valid()
    ensures db.batches == old(db.batches) + 1
    ensures err == if fails then Some(DatabaseFailed) else None
    ensures db.rows == if fails then old(db.rows) else Inserted(old(db.rows), SpecsOf(fs), old(db.nextId))
    ensures err.None? ==> Numbered(specs[..], old(db.nextId))
  {
    assert specs[..] == SpecsOf(fs);
    var ok := db.BatchCreate(specs, fails);
    err := if ok then None else Some(DatabaseFailed);
  }

  /** Mutator i of the chain. */
  method Mutate(builders: seq<Builder>, i: nat, specs: array<CreateSpec>, nodes: array<Application>,
                db: Database, fails: bool, ghost fs: seq<Fields>)
    returns (err: Option<CreateError>)
    requires i < |builders| == specs.Length == nodes.Length && Hold(builders, fs)
    requires specs[..i] == SpecsOf(fs)[..i] && db.Valid()
    modifies specs, nodes, db
    ensures db.Valid()
    ensures db.batches >= old(db.batches)
    ensures Outcome(err, fs, i, fails, db.batches - old(db.batches), old(db.rows), old(db.nextId), db.rows)
    ensures err.None? ==> Numbered(specs[..], old(db.nextId)) && Made(nodes[..], fs, i, old(db.nextId))
    ensures forall k | 0 <= k < i :: nodes[k] == old(nodes[k])
    decreases |builders| - i
  {
    err := Check(builders[i].fields);
    if err.Some? {
      return;
    }
    Fill(builders, i, specs, nodes, fs);
    if i < |builders| - 1 {
      err := Mutate(builders, i + 1, specs, nodes, db, fails, fs);
    } else {
      err := Commit(specs, db, fails, fs);
    }
    if err.None? {
      nodes[i] := nodes[i].(id := specs[i].id.value);
    }
  }

  /** What defaults makes of every builder, wherever the same builder stands more than once. */
  function AllDefaulted(fs: seq<Fields>, now: int): seq<Fields> {
    seq(|fs|, i requires 0 <= i < |fs| => Defaulted(fs[i], now))
  }

  /** A bulk passes all checks if and only if every builder sets the three fields without a default. */
  lemma {:induction false} BulkPassesIff(fs: seq<Fields>, now: int)
    ensures FirstError(AllDefaulted(fs, now), 0).None? <==>
            forall i | 0 <= i < |fs| :: fs[i].name.Some? && fs[i].status.Some? && fs[i].scenario.Some?
  {
    var ds := AllDefaulted(fs, now);
    FirstErrorIsFirst(ds, 0);
    forall i | 0 <= i < |fs| ensures ds[i] == Defaulted(fs[i], now) {
    }
    forall i | 0 <= i < |fs|
      ensures Check(ds[i]).None? <==> fs[i].name.Some? && fs[i].status.Some? && fs[i].scenario.Some?
    {
      DefaultedPassesIff(fs[i], now);
    }
  }

  /** The rows are those before and, from id `first` on, one for each builder that holds what it was given. */
  ghost predicate StoresAll(after: map<int, Row>, rows: map<int, Row>, fs: seq<Fields>, first: int) {
    && |after| == |rows| + |fs|
    && (forall id | id in rows :: id in after && after[id] == rows[id])
    && (forall i | 0 <= i < |fs| :: Stores(after, first + i, fs[i]))
  }

  /**
   After a bulk that was inserted, the table has one row more per builder, no old row
   has changed, and the row of builder i reads back as the node handed to the caller
   and carries its edges.
   */
  lemma BulkIsStored(rows: map<int, Row>, fs: seq<Fields>, first: int)
    requires forall id | id in rows :: id < first
    ensures StoresAll(Inserted(rows, SpecsOf(fs), first), rows, fs, first)
  {
    InsertedRows(rows, SpecsOf(fs), first);
    var after := Inserted(rows, SpecsOf(fs), first);
    forall i | 0 <= i < |fs| ensures Stores(after, first + i, fs[i]) {
      assert RowAt(after, SpecsOf(fs), first, i);
      RowStores(after, first + i, fs[i]);
    }
  }

  method DefaultAll(builders: seq<Builder>, now: int, ghost before: seq<Fields>)
    requires Hold(builders, before)
    modifies builders
    ensures Hold(builders, AllDefaulted(before, now))
  {
    for i := 0 to |builders|
      invariant forall k | 0 <= k < |builders| ::
                  builders[k].fields == Defaulted(before[k], now)
                  || (builders[k].fields == before[k] && builders[k] !in builders[..i])
    {
      builders[i].SetDefaults(now);
      DefaultedPassesIff(before[i], now);
    }
  }

  /** The node and the row with this id hold what the builder was given, with its defaults. */
  ghost predicate HeldAt(node: Application, rows: map<int, Row>, f: Fields, now: int, id: int) {
    NodeIs(node, f, now, id) && id in rows && RowIs(rows[id], f, now)
  }

  lemma BuilderIsHeld(node: Application, rows: map<int, Row>, f: Fields, now: int, id: int)
    requires node == EntityOf(Defaulted(f, now)).(id := id)
    requires id in rows && rows[id] == RowOf(Defaulted(f, now))
    ensures HeldAt(node, rows, f, now, id)
  {
    NodeHoldsFields(f, now, id);
    RowHoldsFields(f, now);
  }

  ghost predicate AllHeld(nodes: seq<Application>, rows: map<int, Row>, before: seq<Fields>, now: int, first: int) {
    |nodes| == |before| && forall i | 0 <= i < |nodes| :: HeldAt(nodes[i], rows, before[i], now, first + i)
  }

  lemma BulkHoldsFields(nodes: seq<Application>, rows: map<int, Row>, before: seq<Fields>, now: int, first: int)
    requires forall id | id in rows :: id < first
    requires |nodes| == |before| && Made(nodes, AllDefaulted(before, now), 0, first)
    ensures AllHeld(nodes, Inserted(rows, SpecsOf(AllDefaulted(before, now)), first), before, now, first)
  {
    var specs := SpecsOf(AllDefaulted(before, now));
    InsertedRows(rows, specs, first);
    var after := Inserted(rows, specs, first);
    forall i | 0 <= i < |nodes| ensures HeldAt(nodes[i], after, before[i], now, first + i) {
      assert RowAt(after, specs, first, i);
      BuilderIsHeld(nodes[i], after, before[i], now, first + i);
    }
  }

  /** The lists of specs and nodes, and the chain from its first mutator on. */
  method RunChain(builders: seq<Builder>, db: Database, fails: bool, ghost fs: seq<Fields>)
    returns (nodes: seq<Application>, err: Option<CreateError>)
    requires builders != [] && Hold(builders, fs) && db.Valid()
    modifies db
    ensures db.Valid()
    ensures db.batches >= old(db.batches)
    ensures Outcome(err, fs, 0, fails, db.batches - old(db.batches), old(db.rows), old(db.nextId), db.rows)
    ensures err.None? ==> |nodes| == |builders| && Made(nodes, fs, 0, old(db.nextId))
  {
    nodes := [];
    var specs := new CreateSpec[|builders|](_ => CreateSpec(Row([], []), None));
    var list := new Application[|builders|](_ => Application(0, "", "", 0, 0, 0, "", "", ""));
    err := Mutate(builders, 0, specs, list, db, fails, fs);
    if err.None? {
      nodes := list[..];
    }
  }

  /**
   What a bulk of builders with these fields comes to: which error, how many calls of
   the database, and which rows.  All rows are inserted beside the old ones, or none.
   */
  ghost predicate Saved(fs: seq<Fields>, fails: bool, err: Option<CreateError>, calls: int,
                        rows: map<int, Row>, first: int, after: map<int, Row>)
  {
    && calls == (if fs != [] && FirstError(fs, 0).None? then 1 else 0)
    && (FirstError(fs, 0).Some? ==> err == FirstError(fs, 0))
    && (FirstError(fs, 0).None? ==> err == (if fs != [] && fails then Some(DatabaseFailed) else None))
    && after == (if err.None? then Inserted(rows, SpecsOf(fs), first) else rows)
    && (err.None? ==> StoresAll(after, rows, fs, first))
  }

  lemma OutcomeIsSaved(fs: seq<Fields>, fails: bool, err: Option<CreateError>, calls: int,
                       rows: map<int, Row>, first: int, after: map<int, Row>)
    requires forall id | id in rows :: id < first
    requires if fs == [] then err.None? && calls == 0 && after == rows
             else 0 <= calls && Outcome(err, fs, 0, fails, calls, rows, first, after)
    ensures Saved(fs, fails, err, calls, rows, first, after)
  {
    assert StoresAll(Inserted(rows, SpecsOf(fs), first), rows, fs, first) by {
      BulkIsStored(rows, fs, first);
    }
  }

  /**
   Save of a bulk of builders, none of which runs hooks.  With all checks passed the
   database is called once; it is not called if there is no builder or some check
   fails, and then the error is that of the first builder to fail.  Either all rows
   are inserted, in builder order and beside the old ones, and every node carries
   the id of its row, or none.
   */
  method Save(builders: seq<Builder>, now: int, db: Database, fails: bool, ghost before: seq<Fields>)
    returns (nodes: seq<Application>, err: Option<CreateError>)
    requires Hold(builders, before) && db.Valid()
    modifies builders, db
    ensures db.Valid()
    ensures Saved(AllDefaulted(before, now), fails, err, db.batches - old(db.batches), old(db.rows), old(db.nextId),
                  db.rows)
    ensures err.None? ==> |nodes| == |builders| && Made(nodes, AllDefaulted(before, now), 0, old(db.nextId))
    ensures err.None? ==> AllHeld(nodes, db.rows, before, now, old(db.nextId))
  {
    DefaultAll(builders, now, before);
    nodes, err := [], None;
    ghost var fs := AllDefaulted(before, now);
    if |builders| > 0 {
      nodes, err := RunChain(builders, db, fails, fs);
    }
    OutcomeIsSaved(fs, fails, err, db.batches - old(db.batches), old(db.rows), old(db.nextId), db.rows);
    if err.None? {
      BulkHoldsFields(nodes, old(db.rows), before, now, old(db.nextId));
    }
  }
}
