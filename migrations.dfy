/** The schema-level effect of the four migrations that build the
    `reservations` table, each with its `up()` and `down()`:

    - 2025_08_26 creates the table, its (date, program, slot) index, the
      btree_gist extension and the `reservations_no_overlap` exclusion,
    - 2025_08_28 adds the `reservations_date_room_unique` index,
    - 2025_09_05 adds six personal columns and a (last_name, first_name)
      index (its data backfill lives with the table),
    - 2025_09_07 installs `reservations_no_overlap_trg_fn` and its trigger.

    A failing step leaves the schema as it was (each migration runs in a
    transaction). */
module Migrations {
  import opened Wrappers

  datatype ColumnName =
    | IdCol | DateCol | ProgramCol | SlotCol | RoomCol | NameCol | ContactCol | NoteCol
    | StatusCol | StartAtCol | EndAtCol | CreatedAtCol | UpdatedAtCol
    | LastNameCol | FirstNameCol | EmailCol | PhoneCol | NotebookTypeCol | HasCertificateCol

  function SqlName(c: ColumnName): string
  {
    match c
    case IdCol => "id"
    case DateCol => "date"
    case ProgramCol => "program"
    case SlotCol => "slot"
    case RoomCol => "room"
    case NameCol => "name"
    case ContactCol => "contact"
    case NoteCol => "note"
    case StatusCol => "status"
    case StartAtCol => "start_at"
    case EndAtCol => "end_at"
    case CreatedAtCol => "created_at"
    case UpdatedAtCol => "updated_at"
    case LastNameCol => "last_name"
    case FirstNameCol => "first_name"
    case EmailCol => "email"
    case PhoneCol => "phone"
    case NotebookTypeCol => "notebook_type"
    case HasCertificateCol => "has_certificate"
  }

  /** The named objects the migrations create besides columns. */
  datatype SchemaObject =
    | NoOverlapConstraint   // reservations_no_overlap
    | DateProgramSlotIndex  // reservations_date_program_slot_index
    | DateRoomUnique        // reservations_date_room_unique
    | NameIndex             // reservations_last_name_first_name_index
    | TriggerFunction       // reservations_no_overlap_trg_fn
    | OverlapTrigger        // reservations_no_overlap_trg
    | BtreeGist             // the btree_gist extension

  /** A column as declared: nullability, default, and an explicit length limit. */
  datatype ColumnSpec = ColumnSpec(nullable: bool, defaultValue: Option<string>, maxLength: Option<nat>)

  datatype Schema = Schema(
    hasTable: bool,
    columns: map<ColumnName, ColumnSpec>,
    indexes: set<SchemaObject>,
    constraints: set<SchemaObject>,
    triggers: set<SchemaObject>,
    functions: set<SchemaObject>,
    extensions: set<SchemaObject>)

  datatype MigrationError =
    | TableExists
    | NoTable
    | DuplicateColumn
    | MissingColumn
    | DuplicateIndex(index: SchemaObject)
    | MissingIndex(index: SchemaObject)

  /** Objects that belong to the table disappear with it. */
  predicate WellFormed(s: Schema)
  {
    !s.hasTable ==> s.columns == map[] && s.indexes == {} && s.constraints == {} && s.triggers == {}
  }

  const REQUIRED: ColumnSpec := ColumnSpec(false, None, None)
  const NULLABLE: ColumnSpec := ColumnSpec(true, None, None)

  /** The NOT NULL columns without a default: the ones every INSERT must supply. */
  function RequiredColumns(cols: map<ColumnName, ColumnSpec>): (r: set<ColumnName>)
    ensures forall c :: c in r <==> c in cols && !cols[c].nullable && cols[c].defaultValue.None?
  {
    set c | c in cols && !cols[c].nullable && cols[c].defaultValue.None?
  }

  // ---------------------------------------------------------------------
  // 2025_08_26: create the table

  /** `id()`, the columns, `timestamps()`. */
  const CREATE_COLUMNS: map<ColumnName, ColumnSpec> := map[
    IdCol := ColumnSpec(false, Some("nextval"), None),
    DateCol := REQUIRED,
    ProgramCol := REQUIRED,
    SlotCol := REQUIRED,
    RoomCol := ColumnSpec(false, Some("A"), None),
    NameCol := REQUIRED,
    ContactCol := NULLABLE,
    NoteCol := NULLABLE,
    StatusCol := ColumnSpec(false, Some("booked"), None),
    StartAtCol := NULLABLE,
    EndAtCol := NULLABLE,
    CreatedAtCol := NULLABLE,
    UpdatedAtCol := NULLABLE]

  function CreateUp(s: Schema): (r: Result<Schema, MigrationError>)
    requires WellFormed(s)
    ensures r.Success? <==> !s.hasTable
    ensures r.Success? ==>
      WellFormed(r.value) && r.value.hasTable &&
      NoOverlapConstraint in r.value.constraints && BtreeGist in r.value.extensions &&
      r.value.functions == s.functions
  {
    if s.hasTable then Failure(TableExists)
    else Success(s.(hasTable := true, columns := CREATE_COLUMNS, indexes := {DateProgramSlotIndex},
                    constraints := {NoOverlapConstraint}, extensions := s.extensions + {BtreeGist}))
  }

  /** `ALTER TABLE reservations DROP CONSTRAINT IF EXISTS reservations_no_overlap`. */
  function DropNoOverlap(s: Schema): Result<Schema, MigrationError>
  {
    if !s.hasTable then Failure(NoTable)
    else Success(s.(constraints := s.constraints - {NoOverlapConstraint}))
  }

  /** `Schema::dropIfExists('reservations')`: the table goes with its columns,
      indexes, constraints and triggers; functions and extensions stay. */
  function DropTableIfExists(s: Schema): Schema
  {
    s.(hasTable := false, columns := map[], indexes := {}, constraints := {}, triggers := {})
  }

  /** down(): first the constraint, then the table. */
  function CreateDown(s: Schema): (r: Result<Schema, MigrationError>)
    ensures r.Success? <==> s.hasTable
    ensures r.Success? ==>
      WellFormed(r.value) && !r.value.hasTable &&
      r.value.extensions == s.extensions && r.value.functions == s.functions
  {
    match DropNoOverlap(s)
    case Failure(e) => Failure(e)
    case Success(t) => Success(DropTableIfExists(t))
  }

  /** Creating and dropping the table restores the schema, except that the
      btree_gist extension stays installed. */
  lemma CreateRoundTrip(s: Schema)
    requires WellFormed(s) && !s.hasTable
    ensures CreateDown(CreateUp(s).value) == Success(s.(extensions := s.extensions + {BtreeGist}))
  {
  }

  /** down()'s first step removes the exclusion while the table still exists. */
  lemma ConstraintDroppedBeforeTable(s: Schema)
    requires s.hasTable
    ensures DropNoOverlap(s).Success? && DropNoOverlap(s).value.hasTable
    ensures NoOverlapConstraint !in DropNoOverlap(s).value.constraints
  {
  }

  /** Defaults of the created table: room 'A', status 'booked'; name is
      required; contact, note, start_at and end_at may be NULL. */
  lemma CreatedColumnDefaults()
    ensures CREATE_COLUMNS[RoomCol].defaultValue == Some("A")
    ensures CREATE_COLUMNS[StatusCol].defaultValue == Some("booked")
    ensures RequiredColumns(CREATE_COLUMNS) == {DateCol, ProgramCol, SlotCol, NameCol}
    ensures forall c :: c in {ContactCol, NoteCol, StartAtCol, EndAtCol} ==> CREATE_COLUMNS[c].nullable
  {
    assert RequiredColumns(CREATE_COLUMNS) == {DateCol, ProgramCol, SlotCol, NameCol} by {
      forall c | c in CREATE_COLUMNS
        ensures c in RequiredColumns(CREATE_COLUMNS) <==> c in {DateCol, ProgramCol, SlotCol, NameCol}
      {
      }
    }
  }

  // ---------------------------------------------------------------------
  // 2025_08_28: unique (date, room)

  function UniqueUp(s: Schema): (r: Result<Schema, MigrationError>)
    ensures r.Success? <==> s.hasTable && DateRoomUnique !in s.indexes
    ensures r.Success? ==> r.value == s.(indexes := s.indexes + {DateRoomUnique})
  {
    if !s.hasTable then Failure(NoTable)
    else if DateRoomUnique in s.indexes then Failure(DuplicateIndex(DateRoomUnique))
    else Success(s.(indexes := s.indexes + {DateRoomUnique}))
  }

  /** `dropUnique('reservations_date_room_unique')`: that index and nothing else. */
  function UniqueDown(s: Schema): (r: Result<Schema, MigrationError>)
    ensures r.Success? <==> s.hasTable && DateRoomUnique in s.indexes
    ensures r.Success? ==>
      DateRoomUnique !in r.value.indexes &&
      r.value.indexes + {DateRoomUnique} == s.indexes &&
      r.value == s.(indexes := r.value.indexes)
  {
    if !s.hasTable then Failure(NoTable)
    else if DateRoomUnique !in s.indexes then Failure(MissingIndex(DateRoomUnique))
    else Success(s.(indexes := s.indexes - {DateRoomUnique}))
  }

  lemma UniqueRoundTrip(s: Schema)
    requires UniqueUp(s).Success?
    ensures UniqueDown(UniqueUp(s).value) == Success(s)
  {
    assert s.indexes + {DateRoomUnique} - {DateRoomUnique} == s.indexes;
  }

  // ---------------------------------------------------------------------
  // 2025_09_05: personal fields

  const PERSONAL_COLUMNS: map<ColumnName, ColumnSpec> := map[
    LastNameCol := NULLABLE,
    FirstNameCol := NULLABLE,
    EmailCol := NULLABLE,
    PhoneCol := ColumnSpec(true, None, Some(32)),
    NotebookTypeCol := ColumnSpec(true, None, Some(32)),
    HasCertificateCol := ColumnSpec(false, Some("false"), None)]

  const PERSONAL_NAMES: set<ColumnName> := {LastNameCol, FirstNameCol, EmailCol, PhoneCol, NotebookTypeCol, HasCertificateCol}

  /** Every added column is nullable or has a default (has_certificate false),
      so rows already in the table satisfy the new schema; phone and
      notebook_type hold at most 32 characters. */
  lemma PersonalColumnsAcceptExistingRows()
    ensures PERSONAL_COLUMNS.Keys == PERSONAL_NAMES
    ensures RequiredColumns(PERSONAL_COLUMNS) == {}
    ensures PERSONAL_COLUMNS[HasCertificateCol].defaultValue == Some("false")
    ensures PERSONAL_COLUMNS[PhoneCol].maxLength == Some(32) && PERSONAL_COLUMNS[NotebookTypeCol].maxLength == Some(32)
  {
    assert RequiredColumns(PERSONAL_COLUMNS) == {} by {
      forall c | c in PERSONAL_COLUMNS ensures c !in RequiredColumns(PERSONAL_COLUMNS) { }
    }
  }

  function PersonalUp(s: Schema): (r: Result<Schema, MigrationError>)
    ensures r.Success? <==> s.hasTable && NameIndex !in s.indexes && s.columns.Keys !! PERSONAL_NAMES
    ensures r.Success? ==> r.value == s.(columns := s.columns + PERSONAL_COLUMNS, indexes := s.indexes + {NameIndex})
  {
    if !s.hasTable then Failure(NoTable)
    else if !(s.columns.Keys !! PERSONAL_NAMES) then Failure(DuplicateColumn)
    else if NameIndex in s.indexes then Failure(DuplicateIndex(NameIndex))
    else Success(s.(columns := s.columns + PERSONAL_COLUMNS, indexes := s.indexes + {NameIndex}))
  }

  /** down(): the name index, then exactly the six added columns. */
  function PersonalDown(s: Schema): (r: Result<Schema, MigrationError>)
    ensures r.Success? <==> s.hasTable && NameIndex in s.indexes && PERSONAL_NAMES <= s.columns.Keys
    ensures r.Success? ==>
      r.value.indexes == s.indexes - {NameIndex} &&
      r.value.columns.Keys == s.columns.Keys - PERSONAL_NAMES &&
      (forall c :: c in r.value.columns ==> r.value.columns[c] == s.columns[c]) &&
      r.value == s.(columns := r.value.columns, indexes := r.value.indexes)
  {
    if !s.hasTable then Failure(NoTable)
    else if NameIndex !in s.indexes then Failure(MissingIndex(NameIndex))
    else if !(PERSONAL_NAMES <= s.columns.Keys) then Failure(MissingColumn)
    else Success(s.(columns := s.columns - PERSONAL_NAMES, indexes := s.indexes - {NameIndex}))
  }

  lemma PersonalRoundTrip(s: Schema)
    requires PersonalUp(s).Success?
    ensures PersonalDown(PersonalUp(s).value) == Success(s)
  {
    var t := PersonalUp(s).value;
    assert PERSONAL_COLUMNS.Keys == PERSONAL_NAMES;
    assert t.columns - PERSONAL_NAMES == s.columns;
    assert s.indexes + {NameIndex} - {NameIndex} == s.indexes;
  }

  // ---------------------------------------------------------------------
  // 2025_09_07: the same-program overlap trigger

  /** CREATE OR REPLACE the function, DROP TRIGGER IF EXISTS, CREATE TRIGGER. */
  function TriggerUp(s: Schema): (r: Result<Schema, MigrationError>)
    ensures r.Success? <==> s.hasTable
    ensures r.Success? ==>
      OverlapTrigger in r.value.triggers && TriggerFunction in r.value.functions &&
      r.value.columns == s.columns && r.value.indexes == s.indexes && r.value.constraints == s.constraints
  {
    if !s.hasTable then Failure(NoTable)
    else Success(s.(functions := s.functions + {TriggerFunction}, triggers := s.triggers - {OverlapTrigger} + {OverlapTrigger}))
  }

  /** Running up() twice is the same as running it once. */
  lemma TriggerUpIdempotent(s: Schema)
    requires TriggerUp(s).Success?
    ensures TriggerUp(TriggerUp(s).value) == TriggerUp(s)
  {
  }

  function TriggerDown(s: Schema): (r: Schema)
    ensures OverlapTrigger !in r.triggers && TriggerFunction !in r.functions
    ensures r.columns == s.columns && r.indexes == s.indexes && r.constraints == s.constraints
  {
    s.(triggers := s.triggers - {OverlapTrigger}, functions := s.functions - {TriggerFunction})
  }

  lemma TriggerRoundTrip(s: Schema)
    requires s.hasTable && OverlapTrigger !in s.triggers && TriggerFunction !in s.functions
    ensures TriggerDown(TriggerUp(s).value) == s
  {
    assert s.triggers - {OverlapTrigger} + {OverlapTrigger} - {OverlapTrigger} == s.triggers;
    assert s.functions + {TriggerFunction} - {TriggerFunction} == s.functions;
  }

  // ---------------------------------------------------------------------
  // All four in order

  const EMPTY_SCHEMA: Schema := Schema(false, map[], {}, {}, {}, {}, {})

  function Then(r: Result<Schema, MigrationError>, step: Schema -> Result<Schema, MigrationError>): Result<Schema, MigrationError>
  {
    if r.Failure? then r else step(r.value)
  }

  function MigrateAll(s: Schema): Result<Schema, MigrationError>
    requires WellFormed(s)
  {
    Then(Then(Then(CreateUp(s), UniqueUp), PersonalUp), TriggerUp)
  }

  function RollbackAll(s: Schema): Result<Schema, MigrationError>
  {
    Then(Then(Then(Success(TriggerDown(s)), PersonalDown), UniqueDown), CreateDown)
  }

  /** From an empty database the four migrations succeed and leave all three
      write guards in place: nothing later drops an earlier constraint. */
  lemma MigrateFromEmpty()
    ensures MigrateAll(EMPTY_SCHEMA).Success?
    ensures var s := MigrateAll(EMPTY_SCHEMA).value;
      NoOverlapConstraint in s.constraints && DateRoomUnique in s.indexes && OverlapTrigger in s.triggers &&
      s.columns == CREATE_COLUMNS + PERSONAL_COLUMNS
  {
    var s1 := CreateUp(EMPTY_SCHEMA).value;
    var s2 := UniqueUp(s1).value;
    assert CREATE_COLUMNS.Keys !! PERSONAL_NAMES;
    assert PersonalUp(s2).Success?;
  }

  /** Rolling all four back in reverse order returns to the empty database,
      except for the btree_gist extension, which no down() removes. */
  lemma RollbackAfterMigrate()
    ensures RollbackAll(MigrateAll(EMPTY_SCHEMA).value) == Success(EMPTY_SCHEMA.(extensions := {BtreeGist}))
  {
    MigrateFromEmpty();
    var s1 := CreateUp(EMPTY_SCHEMA).value;
    var s2 := UniqueUp(s1).value;
    var s3 := PersonalUp(s2).value;
    var s4 := TriggerUp(s3).value;
    assert MigrateAll(EMPTY_SCHEMA) == Success(s4);
    TriggerRoundTrip(s3);
    PersonalRoundTrip(s2);
    UniqueRoundTrip(s1);
    CreateRoundTrip(EMPTY_SCHEMA);
    assert EMPTY_SCHEMA.extensions + {BtreeGist} == {BtreeGist};
    calc {
      RollbackAll(s4);
      Then(Then(Then(Success(s3), PersonalDown), UniqueDown), CreateDown);
      Then(Then(Success(s2), UniqueDown), CreateDown);
      Then(Success(s1), CreateDown);
      CreateDown(s1);
    }
  }
}
