/** The `reservations` table after all four migrations, with the guards every
    INSERT and UPDATE must pass:

    - the NOT NULL columns and the column defaults (`room` 'A', `status`
      'booked', `has_certificate` false),
    - the `varchar(32)` limit on `phone` and `notebook_type`,
    - the BEFORE INSERT OR UPDATE trigger `reservations_no_overlap_trg`:
      an active row (status booked or done) may not overlap, half-open, an
      active row of the same program,
    - the exclusion constraint `reservations_no_overlap`: no two rows of one
      room whose closed ranges `tsrange(start_at, end_at, '[]')` intersect,
      whatever their status or program,
    - the unique index `reservations_date_room_unique` on `(date, room)`;

    and the one-shot backfill of `last_name` from `name`.

    Timestamps are integer instants and dates are day numbers. */
module ReservationsTable {
  import opened Wrappers

  type Instant = int
  type Day = int

  const DEFAULT_ROOM: string := "A"
  const DEFAULT_STATUS: string := "booked"
  const DEFAULT_HAS_CERTIFICATE: bool := false
  const PHONE_MAX_LENGTH: nat := 32
  const NOTEBOOK_TYPE_MAX_LENGTH: nat := 32

  /** A stored row. NOT NULL columns have plain types, nullable ones are Options. */
  datatype Row = Row(
    id: nat,
    date: Day,
    program: string,
    slot: string,
    room: string,
    name: string,
    contact: Option<string>,
    note: Option<string>,
    status: string,
    startAt: Option<Instant>,
    endAt: Option<Instant>,
    lastName: Option<string>,
    firstName: Option<string>,
    email: Option<string>,
    phone: Option<string>,
    notebookType: Option<string>,
    hasCertificate: bool)

  /** What a write says about one column: nothing, an explicit NULL, or a value. */
  datatype Field<T> = Omitted | Null | Given(value: T)

  /** The columns of an INSERT or of the SET list of an UPDATE (`id` is never written). */
  datatype Input = Input(
    date: Field<Day>,
    program: Field<string>,
    slot: Field<string>,
    room: Field<string>,
    name: Field<string>,
    contact: Field<string>,
    note: Field<string>,
    status: Field<string>,
    startAt: Field<Instant>,
    endAt: Field<Instant>,
    lastName: Field<string>,
    firstName: Field<string>,
    email: Field<string>,
    phone: Field<string>,
    notebookType: Field<string>,
    hasCertificate: Field<bool>)

  datatype WriteError =
    | NotNullViolation(column: string)
    | ValueTooLong(column: string)
    | ProgramOverlap        // raised by reservations_no_overlap_trg_fn
    | RangeBoundsInverted   // tsrange(start_at, end_at, '[]') with start_at > end_at
    | RoomOverlap           // the reservations_no_overlap exclusion constraint
    | DateRoomTaken         // the reservations_date_room_unique index
    | NoSuchRow             // the UPDATE's WHERE id = ... matched no row

  /** The SQLSTATE the database reports for a rejected write. The trigger
      raises `unique_violation`, so it reports the same code as the unique
      index. An UPDATE that matches no row raises nothing. */
  function SqlState(e: WriteError): (code: Option<string>)
    ensures e == ProgramOverlap ==> code == Some("23505")
    ensures code == Some("23505") <==> e == ProgramOverlap || e == DateRoomTaken
    ensures code.None? <==> e == NoSuchRow
  {
    match e
    case NotNullViolation(_) => Some("23502")
    case ValueTooLong(_) => Some("22001")
    case ProgramOverlap => Some("23505")
    case RangeBoundsInverted => Some("22000")
    case RoomOverlap => Some("23P01")
    case DateRoomTaken => Some("23505")
    case NoSuchRow => None
  }

  // ---------------------------------------------------------------------
  // From a write to a row

  /** The column as written, or `base` when the write does not mention it. */
  function Pick<T>(f: Field<T>, base: Field<T>): Field<T>
  {
    if f.Omitted? then base else f
  }

  /** Overlays the columns a write mentions on `base`. */
  function Overlay(w: Input, base: Input): Input
  {
    Input(Pick(w.date, base.date), Pick(w.program, base.program), Pick(w.slot, base.slot),
          Pick(w.room, base.room), Pick(w.name, base.name), Pick(w.contact, base.contact),
          Pick(w.note, base.note), Pick(w.status, base.status), Pick(w.startAt, base.startAt),
          Pick(w.endAt, base.endAt), Pick(w.lastName, base.lastName),
          Pick(w.firstName, base.firstName), Pick(w.email, base.email), Pick(w.phone, base.phone),
          Pick(w.notebookType, base.notebookType), Pick(w.hasCertificate, base.hasCertificate))
  }

  /** The column defaults: `room` 'A', `status` 'booked', `has_certificate`
      false. Every other column has no default. */
  const COLUMN_DEFAULTS: Input := Input(
    Omitted, Omitted, Omitted, Given(DEFAULT_ROOM), Omitted, Omitted, Omitted,
    Given(DEFAULT_STATUS), Omitted, Omitted, Omitted, Omitted, Omitted, Omitted, Omitted,
    Given(DEFAULT_HAS_CERTIFICATE))

  /** A write that mentions no column. */
  const NO_CHANGE: Input := Input(
    Omitted, Omitted, Omitted, Omitted, Omitted, Omitted, Omitted, Omitted, Omitted,
    Omitted, Omitted, Omitted, Omitted, Omitted, Omitted, Omitted)

  function Nullable<T>(f: Field<T>): Option<T>
  {
    if f.Given? then Some(f.value) else None
  }

  function AsField<T>(o: Option<T>): Field<T>
  {
    if o.Some? then Given(o.value) else Null
  }

  /** A stored row seen as the base of an UPDATE: every column has its current value. */
  function FromRow(r: Row): Input
  {
    Input(Given(r.date), Given(r.program), Given(r.slot), Given(r.room), Given(r.name),
          AsField(r.contact), AsField(r.note), Given(r.status), AsField(r.startAt),
          AsField(r.endAt), AsField(r.lastName), AsField(r.firstName), AsField(r.email),
          AsField(r.phone), AsField(r.notebookType), Given(r.hasCertificate))
  }

  /** The row a complete column list makes, or the first NOT NULL column left NULL. */
  function ToRow(id: nat, c: Input): (r: Result<Row, WriteError>)
    ensures r.Success? <==>
      c.date.Given? && c.program.Given? && c.slot.Given? && c.room.Given? &&
      c.name.Given? && c.status.Given? && c.hasCertificate.Given?
    ensures r.Success? ==> r.value.id == id && FromRow(r.value) == Overlay(c, FromRow(r.value))
  {
    if !c.date.Given? then Failure(NotNullViolation("date"))
    else if !c.program.Given? then Failure(NotNullViolation("program"))
    else if !c.slot.Given? then Failure(NotNullViolation("slot"))
    else if !c.room.Given? then Failure(NotNullViolation("room"))
    else if !c.name.Given? then Failure(NotNullViolation("name"))
    else if !c.status.Given? then Failure(NotNullViolation("status"))
    else if !c.hasCertificate.Given? then Failure(NotNullViolation("has_certificate"))
    else
      Success(Row(id, c.date.value, c.program.value, c.slot.value, c.room.value, c.name.value,
                  Nullable(c.contact), Nullable(c.note), c.status.value, Nullable(c.startAt),
                  Nullable(c.endAt), Nullable(c.lastName), Nullable(c.firstName),
                  Nullable(c.email), Nullable(c.phone), Nullable(c.notebookType),
                  c.hasCertificate.value))
  }

  /** The row an INSERT would store, before any guard looks at it. */
  function NewRow(id: nat, w: Input): Result<Row, WriteError>
  {
    ToRow(id, Overlay(w, COLUMN_DEFAULTS))
  }

  /** The row an UPDATE of `prev` would store, before any guard looks at it. */
  function ChangedRow(prev: Row, w: Input): Result<Row, WriteError>
  {
    ToRow(prev.id, Overlay(w, FromRow(prev)))
  }

  /** Omitted columns take their defaults; the required columns reject
      omission and explicit NULL alike. */
  lemma InsertDefaults(id: nat, w: Input)
    ensures NewRow(id, w).Success? ==>
      (w.room.Omitted? ==> NewRow(id, w).value.room == "A") &&
      (w.status.Omitted? ==> NewRow(id, w).value.status == "booked") &&
      (w.hasCertificate.Omitted? ==> !NewRow(id, w).value.hasCertificate) &&
      (w.contact.Omitted? ==> NewRow(id, w).value.contact.None?) &&
      (w.startAt.Omitted? ==> NewRow(id, w).value.startAt.None?) &&
      (w.endAt.Omitted? ==> NewRow(id, w).value.endAt.None?)
    ensures !w.name.Given? ==> NewRow(id, w).Failure?
    ensures w.room.Null? ==> NewRow(id, w).Failure?
    ensures (w.date.Given? && w.program.Given? && w.slot.Given? && w.name.Given? &&
             !w.room.Null? && !w.status.Null? && !w.hasCertificate.Null?) ==> NewRow(id, w).Success?
  {
  }

  /** An UPDATE that sets no column leaves the row as it was. */
  lemma UpdateNothingKeepsRow(r: Row)
    ensures ChangedRow(r, NO_CHANGE) == Success(r)
  {
  }

  /** An UPDATE keeps every column it does not mention. */
  lemma UpdateKeepsUnmentioned(r: Row, w: Input)
    requires ChangedRow(r, w).Success?
    ensures var n := ChangedRow(r, w).value;
      n.id == r.id &&
      (w.status.Omitted? ==> n.status == r.status) &&
      (w.startAt.Omitted? ==> n.startAt == r.startAt) &&
      (w.endAt.Omitted? ==> n.endAt == r.endAt) &&
      (w.program.Omitted? ==> n.program == r.program) &&
      (w.room.Omitted? ==> n.room == r.room) &&
      (w.date.Omitted? ==> n.date == r.date)
  {
  }

  // ---------------------------------------------------------------------
  // The trigger: same program, half-open windows, active rows only

  /** `status IN ('booked','done')`. */
  predicate IsActive(status: string)
  {
    status == "booked" || status == "done"
  }

  /** SQL `a < b` on nullable timestamps: true only when both are present. */
  predicate SqlLess(a: Option<Instant>, b: Option<Instant>)
  {
    a.Some? && b.Some? && a.value < b.value
  }

  /** The WHERE clause of the trigger's EXISTS query, for the existing row `r`
      and the row `n` being written. `NEW.id` is never NULL here: the
      sequence default is applied before BEFORE triggers run. */
  predicate TriggerMatches(r: Row, n: Row)
  {
    r.program == n.program && IsActive(r.status) && r.id != n.id
    && SqlLess(r.startAt, n.endAt) && SqlLess(n.startAt, r.endAt)
  }

  /** `reservations_no_overlap_trg_fn` raises for `n`. */
  predicate TriggerRejects(rows: seq<Row>, n: Row)
  {
    IsActive(n.status) && exists r :: r in rows && TriggerMatches(r, n)
  }

  /** Two distinct active rows of one program whose windows overlap, stated
      symmetrically: the relation the trigger keeps out of the table. */
  predicate ProgramConflict(a: Row, b: Row)
  {
    a.id != b.id && a.program == b.program && IsActive(a.status) && IsActive(b.status)
    && SqlLess(a.startAt, b.endAt) && SqlLess(b.startAt, a.endAt)
  }

  /** The trigger raises exactly when some row of the table is in conflict
      with the new one. */
  lemma TriggerRejectsIff(rows: seq<Row>, n: Row)
    ensures TriggerRejects(rows, n) <==> exists r :: r in rows && ProgramConflict(r, n)
  {
  }

  lemma ProgramConflictSymmetric(a: Row, b: Row)
    ensures ProgramConflict(a, b) <==> ProgramConflict(b, a)
  {
  }

  /** Instant `t` lies in the half-open window [s, e). */
  predicate InHalfOpen(t: Instant, s: Option<Instant>, e: Option<Instant>)
  {
    s.Some? && e.Some? && s.value <= t < e.value
  }

  /** For non-empty windows, the trigger's two strict comparisons hold exactly
      when the half-open windows share an instant. */
  lemma HalfOpenOverlapIff(a: Row, b: Row)
    requires SqlLess(a.startAt, a.endAt) && SqlLess(b.startAt, b.endAt)
    ensures SqlLess(a.startAt, b.endAt) && SqlLess(b.startAt, a.endAt)
        <==> exists t :: InHalfOpen(t, a.startAt, a.endAt) && InHalfOpen(t, b.startAt, b.endAt)
  {
    if SqlLess(a.startAt, b.endAt) && SqlLess(b.startAt, a.endAt) {
      var t := if a.startAt.value < b.startAt.value then b.startAt.value else a.startAt.value;
      assert InHalfOpen(t, a.startAt, a.endAt) && InHalfOpen(t, b.startAt, b.endAt);
    }
  }

  /** A zero-length window is empty as a half-open interval, yet the trigger
      still rejects it inside an active window of the same program. */
  lemma ZeroLengthWindowStillConflicts(a: Row, b: Row)
    requires a.id != b.id && a.program == b.program && IsActive(a.status) && IsActive(b.status)
    requires a.startAt.Some? && a.startAt == a.endAt
    requires SqlLess(b.startAt, a.startAt) && SqlLess(a.startAt, b.endAt)
    ensures !exists t :: InHalfOpen(t, a.startAt, a.endAt)
    ensures TriggerRejects([b], a)
  {
    assert TriggerMatches(b, a);
  }

  /** A row that is not booked or done, a cancelled one say, passes the trigger. */
  lemma InactiveNeverRejected(rows: seq<Row>, n: Row)
    requires !IsActive(n.status)
    ensures !TriggerRejects(rows, n)
  {
  }

  /** Windows that merely touch (one ends where the other starts) pass the trigger. */
  lemma TouchingWindowsPassTrigger(r: Row, n: Row)
    requires r.endAt.Some? && n.startAt.Some? && r.endAt.value == n.startAt.value
    requires r.startAt.Some? && n.endAt.Some? && r.startAt.value <= r.endAt.value && n.startAt.value <= n.endAt.value
    ensures !TriggerRejects([r], n)
  {
  }

  /** Rows of different programs never meet in the trigger. */
  lemma DifferentProgramsPassTrigger(r: Row, n: Row)
    requires r.program != n.program
    ensures !TriggerRejects([r], n)
  {
  }

  /** A NULL bound on either side makes the comparisons not true. */
  lemma NullBoundPassesTrigger(r: Row, n: Row)
    requires r.startAt.None? || r.endAt.None? || n.startAt.None? || n.endAt.None?
    ensures !TriggerRejects([r], n)
  {
  }

  // ---------------------------------------------------------------------
  // The exclusion constraint: same room, closed ranges, every status

  /** `tsrange(s1, e1, '[]') && tsrange(s2, e2, '[]')`. A NULL bound leaves
      the range unbounded on that side. */
  predicate ClosedRangesIntersect(s1: Option<Instant>, e1: Option<Instant>, s2: Option<Instant>, e2: Option<Instant>)
  {
    (s1.None? || e2.None? || s1.value <= e2.value) && (s2.None? || e1.None? || s2.value <= e1.value)
  }

  /** Instant `t` lies in the closed range from `s` to `e`, a missing bound being unbounded. */
  predicate InClosed(t: Instant, s: Option<Instant>, e: Option<Instant>)
  {
    (s.None? || s.value <= t) && (e.None? || t <= e.value)
  }

  /** For well-formed ranges, `&&` holds exactly when the closed ranges share an instant. */
  lemma ClosedRangesIntersectIff(s1: Option<Instant>, e1: Option<Instant>, s2: Option<Instant>, e2: Option<Instant>)
    requires s1.Some? && e1.Some? ==> s1.value <= e1.value
    requires s2.Some? && e2.Some? ==> s2.value <= e2.value
    ensures ClosedRangesIntersect(s1, e1, s2, e2) <==> exists t :: InClosed(t, s1, e1) && InClosed(t, s2, e2)
  {
    if ClosedRangesIntersect(s1, e1, s2, e2) {
      var t :=
        if s1.Some? && s2.Some? then (if s1.value < s2.value then s2.value else s1.value)
        else if s1.Some? then s1.value
        else if s2.Some? then s2.value
        else if e1.Some? && e2.Some? then (if e1.value < e2.value then e1.value else e2.value)
        else if e1.Some? then e1.value
        else if e2.Some? then e2.value
        else 0;
      assert InClosed(t, s1, e1) && InClosed(t, s2, e2);
    }
  }

  /** The exclusion constraint's conflict between an existing row and the row written. */
  predicate RoomConflict(r: Row, n: Row)
  {
    r.id != n.id && r.room == n.room && ClosedRangesIntersect(r.startAt, r.endAt, n.startAt, n.endAt)
  }

  /** `tsrange` refuses a lower bound above the upper bound. */
  predicate BoundsInverted(n: Row)
  {
    n.startAt.Some? && n.endAt.Some? && n.startAt.value > n.endAt.value
  }

  /** Windows that touch conflict in the same room, although the trigger lets them pass. */
  lemma TouchingWindowsConflictInRoom(r: Row, n: Row)
    requires r.id != n.id && r.room == n.room
    requires r.endAt.Some? && n.startAt.Some? && r.endAt.value == n.startAt.value
    requires r.startAt.Some? && n.endAt.Some? && r.startAt.value <= r.endAt.value && n.startAt.value <= n.endAt.value
    ensures RoomConflict(r, n)
    ensures !TriggerRejects([r], n)
  {
  }

  /** The exclusion ignores status and program: a cancelled row still blocks its room. */
  lemma CancelledRowStillBlocksRoom(r: Row, n: Row)
    requires r.status == "cancelled" && n.status == "cancelled" && r.program != n.program
    requires r.id != n.id && r.room == n.room && r.startAt == n.startAt && r.endAt == n.endAt
    requires r.startAt.Some? && r.endAt.Some? && r.startAt.value <= r.endAt.value
    ensures RoomConflict(r, n)
  {
  }

  /** Rows without a window are unbounded ranges: two of them in one room conflict. */
  lemma NullWindowsConflictInRoom(r: Row, n: Row)
    requires r.id != n.id && r.room == n.room
    requires r.startAt.None? && r.endAt.None? && n.startAt.None? && n.endAt.None?
    ensures RoomConflict(r, n)
  {
  }

  /** Rows in different rooms never meet in the exclusion constraint. */
  lemma DifferentRoomsNeverConflict(r: Row, n: Row)
    requires r.room != n.room
    ensures !RoomConflict(r, n)
  {
  }

  // ---------------------------------------------------------------------
  // The unique index on (date, room) and the column lengths

  predicate DateRoomClash(r: Row, n: Row)
  {
    r.id != n.id && r.date == n.date && r.room == n.room
  }

  /** Two same-day reservations that both omit `room` land in room 'A' and collide. */
  lemma OmittedRoomsCollide(id1: nat, id2: nat, w1: Input, w2: Input)
    requires id1 != id2 && NewRow(id1, w1).Success? && NewRow(id2, w2).Success?
    requires w1.room.Omitted? && w2.room.Omitted? && w1.date == w2.date
    ensures DateRoomClash(NewRow(id1, w1).value, NewRow(id2, w2).value)
  {
  }

  /** Rows on different days or in different rooms never collide on the index. */
  lemma DifferentDateOrRoomNeverClash(r: Row, n: Row)
    requires r.date != n.date || r.room != n.room
    ensures !DateRoomClash(r, n)
  {
  }

  predicate FitsIn(s: Option<string>, max: nat)
  {
    s.None? || |s.value| <= max
  }

  /** Every guard that looks at one row alone. */
  predicate RowFits(n: Row)
  {
    FitsIn(n.phone, PHONE_MAX_LENGTH) && FitsIn(n.notebookType, NOTEBOOK_TYPE_MAX_LENGTH) && !BoundsInverted(n)
  }

  /** The write of `n` against the current `rows` passes every guard. */
  predicate Admissible(rows: seq<Row>, n: Row)
  {
    RowFits(n) && !TriggerRejects(rows, n)
    && (forall r :: r in rows ==> !RoomConflict(r, n))
    && (forall r :: r in rows ==> !DateRoomClash(r, n))
  }

  /** Runs the guards on `n`; the first one that fails names the error. */
  function Check(rows: seq<Row>, n: Row): (err: Option<WriteError>)
    ensures err.None? <==> Admissible(rows, n)
    ensures err == Some(ProgramOverlap) ==> TriggerRejects(rows, n)
    ensures err == Some(RoomOverlap) ==> exists r :: r in rows && RoomConflict(r, n)
    ensures err == Some(DateRoomTaken) ==> exists r :: r in rows && DateRoomClash(r, n)
    ensures err.Some? ==> err.value != NoSuchRow && !err.value.NotNullViolation?
  {
    if !FitsIn(n.phone, PHONE_MAX_LENGTH) then Some(ValueTooLong("phone"))
    else if !FitsIn(n.notebookType, NOTEBOOK_TYPE_MAX_LENGTH) then Some(ValueTooLong("notebook_type"))
    else if TriggerRejects(rows, n) then Some(ProgramOverlap)
    else if BoundsInverted(n) then Some(RangeBoundsInverted)
    else if exists r :: r in rows && RoomConflict(r, n) then Some(RoomOverlap)
    else if exists r :: r in rows && DateRoomClash(r, n) then Some(DateRoomTaken)
    else None
  }

  // ---------------------------------------------------------------------
  // The table invariant

  ghost predicate IdsUnique(rows: seq<Row>)
  {
    forall i, j :: 0 <= i < |rows| && 0 <= j < |rows| && i != j ==> rows[i].id != rows[j].id
  }

  /** No two active rows of one program have overlapping windows. */
  ghost predicate NoProgramOverlap(rows: seq<Row>)
  {
    forall i, j :: 0 <= i < |rows| && 0 <= j < |rows| ==> !ProgramConflict(rows[i], rows[j])
  }

  ghost predicate NoRoomOverlap(rows: seq<Row>)
  {
    forall i, j :: 0 <= i < |rows| && 0 <= j < |rows| ==> !RoomConflict(rows[i], rows[j])
  }

  ghost predicate DateRoomUnique(rows: seq<Row>)
  {
    forall i, j :: 0 <= i < |rows| && 0 <= j < |rows| ==> !DateRoomClash(rows[i], rows[j])
  }

  /** The contents of the table and the next value of its id sequence. */
  datatype State = State(rows: seq<Row>, nextId: nat)

  ghost predicate Invariant(st: State)
  {
    st.nextId >= 1
    && (forall i :: 0 <= i < |st.rows| ==> 0 < st.rows[i].id < st.nextId && RowFits(st.rows[i]))
    && IdsUnique(st.rows)
    && NoProgramOverlap(st.rows) && NoRoomOverlap(st.rows) && DateRoomUnique(st.rows)
  }

  const EMPTY: State := State([], 1)

  lemma EmptyTableValid()
    ensures Invariant(EMPTY)
  {
  }

  /** Appending a row with a fresh id that passed every guard keeps the invariant. */
  lemma AppendKeepsInvariant(st: State, n: Row)
    requires Invariant(st) && n.id == st.nextId && Admissible(st.rows, n)
    ensures Invariant(State(st.rows + [n], st.nextId + 1))
  {
    var rows := st.rows + [n];
    forall i, j | 0 <= i < |rows| && 0 <= j < |rows|
      ensures !ProgramConflict(rows[i], rows[j])
      ensures !RoomConflict(rows[i], rows[j])
      ensures !DateRoomClash(rows[i], rows[j])
    {
      if i == |st.rows| && j < |st.rows| {
        assert rows[j] in st.rows;
        assert IsActive(n.status) ==> !TriggerMatches(rows[j], n);
      } else if j == |st.rows| && i < |st.rows| {
        assert rows[i] in st.rows;
        assert IsActive(n.status) ==> !TriggerMatches(rows[i], n);
      }
    }
    assert IdsUnique(rows) by {
      forall a, b | 0 <= a < |rows| && 0 <= b < |rows| && a != b
        ensures rows[a].id != rows[b].id
      {
        if a < |st.rows| && b < |st.rows| {
          assert rows[a] == st.rows[a] && rows[b] == st.rows[b];
        }
      }
    }
  }

  /** Replacing the row at `i` by a row with the same id that passed every
      guard keeps the invariant. */
  lemma ReplaceKeepsInvariant(st: State, i: nat, n: Row)
    requires Invariant(st) && i < |st.rows| && n.id == st.rows[i].id && Admissible(st.rows, n)
    ensures Invariant(State(st.rows[i := n], st.nextId))
  {
    var rows := st.rows[i := n];
    forall a, b | 0 <= a < |rows| && 0 <= b < |rows|
      ensures !ProgramConflict(rows[a], rows[b])
      ensures !RoomConflict(rows[a], rows[b])
      ensures !DateRoomClash(rows[a], rows[b])
    {
      if a == i && b != i {
        assert rows[b] == st.rows[b] && rows[b] in st.rows;
        assert IsActive(n.status) ==> !TriggerMatches(rows[b], n);
      } else if b == i && a != i {
        assert rows[a] == st.rows[a] && rows[a] in st.rows;
        assert IsActive(n.status) ==> !TriggerMatches(rows[a], n);
      }
    }
    assert IdsUnique(rows) by {
      forall a, b | 0 <= a < |rows| && 0 <= b < |rows| && a != b
        ensures rows[a].id != rows[b].id
      {
        if a != i && b != i {
          assert rows[a] == st.rows[a] && rows[b] == st.rows[b];
        }
      }
    }
  }

  // ---------------------------------------------------------------------
  // Writes as functions of the table

  /** What a write leaves behind and what it reports. */
  datatype Outcome = Outcome(after: State, result: Result<Row, WriteError>)

  /** INSERT: the id comes from the sequence, which advances even when the
      write is rejected; an accepted row is appended unchanged. */
  function InsertRow(st: State, w: Input): (o: Outcome)
    ensures o.after.nextId == st.nextId + 1
    ensures o.result.Success? ==>
      o.after.rows == st.rows + [o.result.value] &&
      o.result.value.id == st.nextId && Admissible(st.rows, o.result.value)
    ensures o.result.Failure? ==> o.after.rows == st.rows
    ensures Invariant(st) ==> Invariant(o.after)
  {
    var burnt := State(st.rows, st.nextId + 1);
    match NewRow(st.nextId, w)
    case Failure(e) => Outcome(burnt, Failure(e))
    case Success(n) =>
      match Check(st.rows, n)
      case Some(e) => Outcome(burnt, Failure(e))
      case None =>
        var o := Outcome(State(st.rows + [n], st.nextId + 1), Success(n));
        assert Invariant(st) ==> Invariant(o.after) by {
          if Invariant(st) { AppendKeepsInvariant(st, n); }
        }
        o
  }

  /** A stored row holds its (date, room) whatever its status or program:
      every INSERT of a row for the same day and room is refused. */
  lemma OccupiedDateRoomRefused(st: State, w: Input, r: Row)
    requires Invariant(st) && r in st.rows
    requires NewRow(st.nextId, w).Success?
    requires NewRow(st.nextId, w).value.date == r.date && NewRow(st.nextId, w).value.room == r.room
    ensures InsertRow(st, w).result.Failure?
    ensures InsertRow(st, w).after.rows == st.rows
  {
    var n := NewRow(st.nextId, w).value;
    assert DateRoomClash(r, n);
  }

  /** When the trigger is what refuses an INSERT, the write fails with the
      trigger's error, reported as SQLSTATE 23505 (unique_violation). */
  lemma TriggerRefusalIsUniqueViolation(st: State, w: Input)
    requires NewRow(st.nextId, w).Success?
    requires RowFits(NewRow(st.nextId, w).value)
    requires TriggerRejects(st.rows, NewRow(st.nextId, w).value)
    ensures InsertRow(st, w).result == Failure(ProgramOverlap)
    ensures SqlState(InsertRow(st, w).result.error) == Some("23505")
  {
  }

  /** Position of the row with id `id`, if any. */
  function IndexOf(rows: seq<Row>, id: nat): (k: Option<nat>)
    ensures k.Some? ==> k.value < |rows| && rows[k.value].id == id
    ensures k.None? ==> forall r :: r in rows ==> r.id != id
  {
    if rows == [] then None
    else if rows[0].id == id then Some(0)
    else
      match IndexOf(rows[1..], id)
      case None => None
      case Some(k) => Some(k + 1)
  }

  /** UPDATE ... WHERE id = `id`: the row keeps its id and position and is
      checked against every other row; nothing else changes. */
  function UpdateRow(st: State, id: nat, w: Input): (o: Outcome)
    ensures o.after.nextId == st.nextId
    ensures o.result.Success? ==>
      (exists k :: 0 <= k < |st.rows| && st.rows[k].id == id &&
        o.after.rows == st.rows[k := o.result.value]) &&
      Admissible(st.rows, o.result.value)
    ensures o.result.Failure? ==> o.after.rows == st.rows
    ensures (forall r :: r in st.rows ==> r.id != id) ==> o.result == Failure(NoSuchRow)
    ensures Invariant(st) ==> Invariant(o.after)
  {
    match IndexOf(st.rows, id)
    case None => Outcome(st, Failure(NoSuchRow))
    case Some(k) =>
      match ChangedRow(st.rows[k], w)
      case Failure(e) => Outcome(st, Failure(e))
      case Success(n) =>
        match Check(st.rows, n)
        case Some(e) => Outcome(st, Failure(e))
        case None =>
          var o := Outcome(State(st.rows[k := n], st.nextId), Success(n));
          assert Invariant(st) ==> Invariant(o.after) by {
            if Invariant(st) { ReplaceKeepsInvariant(st, k, n); }
          }
          o
  }

  datatype Write = InsertWrite(w: Input) | UpdateWrite(id: nat, change: Input)

  function Apply(st: State, op: Write): State
  {
    match op
    case InsertWrite(w) => InsertRow(st, w).after
    case UpdateWrite(id, w) => UpdateRow(st, id, w).after
  }

  /** The table after a sequence of writes, each accepted or rejected in turn. */
  function Run(st: State, ops: seq<Write>): State
    decreases |ops|
  {
    if ops == [] then st else Run(Apply(st, ops[0]), ops[1..])
  }

  /** Because every INSERT and UPDATE passes the guards, any sequence of writes
      keeps the table free of same-program overlaps among active rows (and
      keeps the room and (date, room) rules). */
  lemma {:induction false} RunKeepsInvariant(st: State, ops: seq<Write>)
    requires Invariant(st)
    ensures Invariant(Run(st, ops))
    ensures NoProgramOverlap(Run(st, ops).rows)
    decreases |ops|
  {
    if ops != [] {
      RunKeepsInvariant(Apply(st, ops[0]), ops[1..]);
    }
  }

  /** Rewriting a stored row with its own values never trips the trigger: the
      row is not compared with itself. */
  lemma SelfNeverConflicts(st: State, k: nat)
    requires Invariant(st) && k < |st.rows|
    ensures !TriggerRejects(st.rows, st.rows[k])
    ensures UpdateRow(st, st.rows[k].id, NO_CHANGE).result == Success(st.rows[k])
  {
    var n := st.rows[k];
    forall r | r in st.rows
      ensures (IsActive(n.status) ==> !TriggerMatches(r, n)) && !RoomConflict(r, n) && !DateRoomClash(r, n)
    {
      var j :| 0 <= j < |st.rows| && st.rows[j] == r;
      assert !ProgramConflict(st.rows[j], st.rows[k]);
    }
    UpdateNothingKeepsRow(n);
    var i := IndexOf(st.rows, n.id).value;
    assert i == k;
  }

  /** Cancelling a booking frees its window for the program: afterwards a
      new active booking of the same program with the same window passes
      the trigger (the room rules may still refuse it). */
  lemma CancelFreesProgramWindow(a: Row, n: Row)
    requires a.id != n.id && a.program == n.program && IsActive(a.status) && IsActive(n.status)
    requires a.startAt == n.startAt && a.endAt == n.endAt
    ensures SqlLess(a.startAt, a.endAt) ==> TriggerRejects([a], n)
    ensures !TriggerRejects([a.(status := "cancelled")], n)
  {
    if SqlLess(a.startAt, a.endAt) {
      assert TriggerMatches(a, n);
    }
  }

  // ---------------------------------------------------------------------
  // The backfill of last_name

  /** `SET last_name = COALESCE(last_name, name) WHERE name IS NOT NULL AND
      last_name IS NULL` for one row; `name` is NOT NULL, so only the
      `last_name` test decides. */
  function BackfillRow(r: Row): Row
  {
    if r.lastName.None? then r.(lastName := Some(r.name)) else r
  }

  function Backfilled(rows: seq<Row>): (out: seq<Row>)
    ensures |out| == |rows|
  {
    seq(|rows|, i requires 0 <= i < |rows| => BackfillRow(rows[i]))
  }

  /** Rows with a last name are untouched, the others get their name, and no
      other column changes. */
  lemma BackfillEffect(rows: seq<Row>)
    ensures forall i :: 0 <= i < |rows| && rows[i].lastName.Some? ==> Backfilled(rows)[i] == rows[i]
    ensures forall i :: 0 <= i < |rows| && rows[i].lastName.None? ==>
      Backfilled(rows)[i] == rows[i].(lastName := Some(rows[i].name))
    ensures forall i :: 0 <= i < |rows| ==> Backfilled(rows)[i].lastName.Some?
  {
  }

  /** A second run of the backfill changes nothing. */
  lemma BackfillIdempotent(rows: seq<Row>)
    ensures Backfilled(Backfilled(rows)) == Backfilled(rows)
  {
  }

  /** The backfill touches no guarded column, so it keeps the invariant. */
  lemma BackfillKeepsInvariant(st: State)
    requires Invariant(st)
    ensures Invariant(State(Backfilled(st.rows), st.nextId))
  {
    var out := Backfilled(st.rows);
    forall i, j | 0 <= i < |out| && 0 <= j < |out|
      ensures !ProgramConflict(out[i], out[j]) && !RoomConflict(out[i], out[j]) && !DateRoomClash(out[i], out[j])
    {
      assert !ProgramConflict(st.rows[i], st.rows[j]);
    }
  }

  // ---------------------------------------------------------------------
  // The table as the database holds it

  class Table {
    var rows: seq<Row>
    var nextId: nat

    function Snapshot(): State
      reads this
    {
      State(rows, nextId)
    }

    ghost predicate Valid()
      reads this
    {
      Invariant(Snapshot())
    }

    constructor ()
      ensures Valid() && Snapshot() == EMPTY
    {
      rows := [];
      nextId := 1;
    }

    /** INSERT INTO reservations. */
    method Insert(w: Input) returns (result: Result<Row, WriteError>)
      modifies this
      ensures old(Valid()) ==> Valid()
      ensures Outcome(Snapshot(), result) == InsertRow(old(Snapshot()), w)
    {
      ghost var spec := InsertRow(Snapshot(), w);
      var id := nextId;
      nextId := nextId + 1;  // nextval() is not rolled back when the write fails
      var candidate := NewRow(id, w);
      if candidate.Failure? {
        return Failure(candidate.error);
      }
      var verdict := Check(rows, candidate.value);
      if verdict.Some? {
        return Failure(verdict.value);
      }
      rows := rows + [candidate.value];
      result := Success(candidate.value);
    }

    /** UPDATE reservations SET ... WHERE id = `id`. */
    method Update(id: nat, w: Input) returns (result: Result<Row, WriteError>)
      modifies this
      ensures old(Valid()) ==> Valid()
      ensures Outcome(Snapshot(), result) == UpdateRow(old(Snapshot()), id, w)
    {
      ghost var spec := UpdateRow(Snapshot(), id, w);
      var k := IndexOf(rows, id);
      if k.None? {
        return Failure(NoSuchRow);
      }
      var candidate := ChangedRow(rows[k.value], w);
      if candidate.Failure? {
        return Failure(candidate.error);
      }
      var verdict := Check(rows, candidate.value);
      if verdict.Some? {
        return Failure(verdict.value);
      }
      rows := rows[k.value := candidate.value];
      result := Success(candidate.value);
    }

    /** The data step of the personal-fields migration: runs only when the
        table has a `name` column, and rewrites the matching rows in place.
        It runs before the overlap trigger exists, so the rows need not
        satisfy the invariant; when they do, they still do afterwards. */
    method BackfillLastName(nameColumnExists: bool)
      modifies this
      ensures old(Valid()) ==> Valid()
      ensures nextId == old(nextId)
      ensures rows == if nameColumnExists then Backfilled(old(rows)) else old(rows)
    {
      if !nameColumnExists {
        return;
      }
      ghost var before := rows;
      var i := 0;
      while i < |rows|
        invariant 0 <= i <= |rows| == |before| && nextId == old(nextId)
        invariant forall k :: 0 <= k < i ==> rows[k] == BackfillRow(before[k])
        invariant forall k :: i <= k < |rows| ==> rows[k] == before[k]
      {
        if rows[i].lastName.None? {
          rows := rows[i := rows[i].(lastName := Some(rows[i].name))];
        }
        i := i + 1;
      }
      assert rows == Backfilled(before);
      if Invariant(State(before, nextId)) {
        BackfillKeepsInvariant(State(before, nextId));
      }
    }
  }
}
