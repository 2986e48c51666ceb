/** The "add reservation" dialog: a draft payload edited field by field,
    kept consistent (a tour never takes the full-day slot), reset on every
    opening, and handed to the caller's submit handler once the browser's
    own form validation passes. Also the `toDateStr` helper that supplies
    today's date. */
module CreateModal {
  import opened Wrappers
  import opened Text
  import opened ReservationTypes

  // ---------------------------------------------------------------------
  // toDateStr

  /** The parts of a `Date` that `toDateStr` reads: the full year, the
      month index 0..11 of `getMonth()` and the day of the month. */
  datatype CalendarDate = CalendarDate(year: int, monthIndex: nat, day: nat)

  predicate ValidDate(d: CalendarDate)
  {
    d.monthIndex < 12 && 1 <= d.day <= 31
  }

  /** `s.padStart(2, "0")`. */
  function PadStart2(s: string): (r: string)
    ensures |s| >= 2 ==> r == s
    ensures |s| < 2 ==> |r| == 2 && r[2 - |s|..] == s
  {
    if |s| >= 2 then s else if |s| == 1 then "0" + s else "00"
  }

  /** `String(n).padStart(2, "0")`. */
  function TwoDigits(n: nat): string
  {
    PadStart2(NatToString(n))
  }

  /** `toDateStr(d)`: `${y}-${m}-${day}`. */
  function ToDateStr(d: CalendarDate): string
    requires ValidDate(d)
  {
    IntToString(d.year) + "-" + TwoDigits(d.monthIndex + 1) + "-" + TwoDigits(d.day)
  }

  /** Below 100, the padded text is two digits worth `n`. */
  lemma TwoDigitsValue(n: nat)
    requires n < 100
    ensures |TwoDigits(n)| == 2 && AllDigits(TwoDigits(n)) && ParseDigits(TwoDigits(n)) == n
  {
    var s := NatToString(n);
    ParseNatToString(n);
    if n < 10 {
      var r := TwoDigits(n);
      assert r == ['0', s[0]];
      assert r[..1] == ['0'];
      assert ParseDigits(['0']) == 0 by {
        assert ['0'][..0] == [];
      }
      assert s[..0] == [];
    } else {
      assert Pow10(1) == 10 && Pow10(2) == 100;
      NatToStringLength(n, 2);
    }
  }

  /** A year from 1000 to 9999 is written with four digits. */
  lemma FourDigitYear(y: int)
    requires 1000 <= y <= 9999
    ensures |IntToString(y)| == 4 && AllDigits(IntToString(y)) && ParseDigits(IntToString(y)) == y
  {
    assert Pow10(3) == 1000 && Pow10(4) == 10000;
    NatToStringLength(y, 4);
    ParseNatToString(y);
  }

  /** "YYYY-MM-DD" read back: four digits, '-', two digits, '-', two digits,
      a month from 1 to 12 and a day from 1 to 31. */
  function ParseDateStr(s: string): (d: Option<CalendarDate>)
    ensures d.Some? ==> ValidDate(d.value) && 0 <= d.value.year < 10000
    ensures d.Some? ==> |s| == 10 && s[4] == '-' && s[7] == '-'
  {
    if |s| == 10 && s[4] == '-' && s[7] == '-' && AllDigits(s[..4]) && AllDigits(s[5..7]) && AllDigits(s[8..])
       && 1 <= ParseDigits(s[5..7]) <= 12 && 1 <= ParseDigits(s[8..]) <= 31
    then
      ParseDigitsBound(s[..4]);
      assert Pow10(4) == 10000; Some(CalendarDate(ParseDigits(s[..4]), ParseDigits(s[5..7]) - 1, ParseDigits(s[8..])))
    else None
  }

  /** The three blocks of a date string with a four-digit year. */
  lemma DateStrBlocks(d: CalendarDate)
    requires ValidDate(d) && 1000 <= d.year <= 9999
    ensures var s := ToDateStr(d);
      |s| == 10 && s[4] == '-' && s[7] == '-' &&
      s[..4] == IntToString(d.year) && s[5..7] == TwoDigits(d.monthIndex + 1) && s[8..] == TwoDigits(d.day)
  {
    FourDigitYear(d.year);
    TwoDigitsValue(d.monthIndex + 1);
    TwoDigitsValue(d.day);
  }

  /** For four-digit years the date string is "YYYY-MM-DD" and reads back
      as the same date. */
  lemma DateStrRoundTrip(d: CalendarDate)
    requires ValidDate(d) && 1000 <= d.year <= 9999
    ensures |ToDateStr(d)| == 10
    ensures ParseDateStr(ToDateStr(d)) == Some(d)
  {
    var s := ToDateStr(d);
    DateStrBlocks(d);
    FourDigitYear(d.year);
    TwoDigitsValue(d.monthIndex + 1);
    TwoDigitsValue(d.day);
  }

  /** Calendar order. */
  predicate Before(a: CalendarDate, b: CalendarDate)
  {
    a.year < b.year
    || (a.year == b.year && a.monthIndex < b.monthIndex)
    || (a.year == b.year && a.monthIndex == b.monthIndex && a.day < b.day)
  }

  /** Equal digit blocks of one length are equal numbers, and conversely. */
  lemma DigitBlocksEqual(s: string, t: string)
    requires AllDigits(s) && AllDigits(t) && |s| == |t|
    ensures s == t <==> ParseDigits(s) == ParseDigits(t)
  {
    DigitsLexOrder(s, t);
    DigitsLexOrder(t, s);
    LexLessTotal(s, t);
  }

  /** The "-MM-DD" part of a date string. */
  function MonthDayStr(d: CalendarDate): string
    requires ValidDate(d)
  {
    "-" + (TwoDigits(d.monthIndex + 1) + ("-" + TwoDigits(d.day)))
  }

  /** A date string is the year followed by its "-MM-DD" part. */
  lemma DateStrSplit(d: CalendarDate)
    requires ValidDate(d)
    ensures ToDateStr(d) == IntToString(d.year) + MonthDayStr(d)
  {
    var y, m, dd := IntToString(d.year), TwoDigits(d.monthIndex + 1), TwoDigits(d.day);
    assert y + "-" + m + "-" + dd == y + ("-" + (m + ("-" + dd)));
  }

  /** A leading dash on both sides does not change the comparison. */
  lemma DashOrder(x: string, y: string)
    ensures LexLess("-" + x, "-" + y) <==> LexLess(x, y)
  {
    LexLessIrreflexive("-");
    LexLessConcat("-", x, "-", y);
  }

  /** Texts led by digit blocks of one length compare by the blocks'
      values first, then by what follows. */
  lemma BlockOrder(x: string, r: string, y: string, t: string)
    requires AllDigits(x) && AllDigits(y) && |x| == |y|
    ensures LexLess(x + r, y + t) <==>
      ParseDigits(x) < ParseDigits(y) || (ParseDigits(x) == ParseDigits(y) && LexLess(r, t))
  {
    LexLessConcat(x, r, y, t);
    DigitsLexOrder(x, y);
    DigitBlocksEqual(x, y);
  }

  /** The "-MM-DD" parts compare as month, then day. */
  lemma MonthDayOrder(a: CalendarDate, b: CalendarDate)
    requires ValidDate(a) && ValidDate(b)
    ensures LexLess(MonthDayStr(a), MonthDayStr(b)) <==>
      a.monthIndex < b.monthIndex || (a.monthIndex == b.monthIndex && a.day < b.day)
  {
    var ma, da := TwoDigits(a.monthIndex + 1), TwoDigits(a.day);
    var mb, db := TwoDigits(b.monthIndex + 1), TwoDigits(b.day);
    TwoDigitsValue(a.monthIndex + 1);
    TwoDigitsValue(b.monthIndex + 1);
    TwoDigitsValue(a.day);
    TwoDigitsValue(b.day);
    DashOrder(ma + ("-" + da), mb + ("-" + db));
    BlockOrder(ma, "-" + da, mb, "-" + db);
    DashOrder(da, db);
    DigitsLexOrder(da, db);
  }

  /** Comparing two date strings with `<`, as the admin page's date bounds
      do, is comparing the dates on the calendar. */
  lemma DateStrOrder(a: CalendarDate, b: CalendarDate)
    requires ValidDate(a) && 1000 <= a.year <= 9999
    requires ValidDate(b) && 1000 <= b.year <= 9999
    ensures LexLess(ToDateStr(a), ToDateStr(b)) <==> Before(a, b)
  {
    var ya, yb := IntToString(a.year), IntToString(b.year);
    FourDigitYear(a.year);
    FourDigitYear(b.year);
    DateStrSplit(a);
    DateStrSplit(b);
    BlockOrder(ya, MonthDayStr(a), yb, MonthDayStr(b));
    MonthDayOrder(a, b);
  }

  // ---------------------------------------------------------------------
  // The draft

  /** The payload being edited. Every optional field of the create payload
      is present in the draft; `room` is null. */
  datatype Draft = Draft(
    date: string,
    program: Program,
    slot: Slot,
    name: string,
    lastName: string,
    firstName: string,
    email: string,
    phone: string,
    notebookType: string,
    hasCertificate: bool,
    note: string,
    room: Option<string>)

  const EMPTY_DRAFT: Draft := Draft("", Experience, Am, "", "", "", "", "", "", false, "", None)

  /** A tour never takes the full-day slot. */
  predicate Consistent(d: Draft)
  {
    !(d.program == Tour && d.slot == Full)
  }

  /** The effect that moves a tour off the full-day slot onto the morning. */
  function Normalize(d: Draft): (r: Draft)
    ensures Consistent(r)
    ensures r == d.(slot := r.slot)
    ensures Consistent(d) ==> r == d
    ensures !Consistent(d) ==> r.slot == Am
  {
    if d.program == Tour && d.slot == Full then d.(slot := Am) else d
  }

  /** The effect runs twice per change (it is registered twice); the
      second run finds nothing to do. */
  lemma NormalizeIdempotent(d: Draft)
    ensures Normalize(Normalize(d)) == Normalize(d)
  {
  }

  /** The draft each opening starts from. */
  function OpenedDraft(initialDate: Option<string>, initialSlot: Option<Slot>, today: CalendarDate): (d: Draft)
    requires ValidDate(today)
    ensures Consistent(d) && d.program == Experience
    ensures d == EMPTY_DRAFT.(date := d.date, slot := d.slot)
    ensures initialDate.Some? ==> d.date == initialDate.value
    ensures initialDate.None? ==> d.date == ToDateStr(today)
    ensures d.slot == initialSlot.GetOr(Am)
  {
    EMPTY_DRAFT.(date := initialDate.GetOr(ToDateStr(today)), slot := initialSlot.GetOr(Am))
  }

  /** The text inputs of the dialog. */
  datatype TextField = DateField | LastNameField | FirstNameField | EmailField | PhoneField | NotebookTypeField

  function TextOf(d: Draft, f: TextField): string
  {
    match f
    case DateField => d.date
    case LastNameField => d.lastName
    case FirstNameField => d.firstName
    case EmailField => d.email
    case PhoneField => d.phone
    case NotebookTypeField => d.notebookType
  }

  /** `setDraft((d) => ({ ...d, <field>: e.target.value }))`. */
  function SetText(d: Draft, f: TextField, v: string): (r: Draft)
    ensures r.program == d.program && r.slot == d.slot && r.hasCertificate == d.hasCertificate
    ensures r.name == d.name && r.note == d.note && r.room == d.room
  {
    match f
    case DateField => d.(date := v)
    case LastNameField => d.(lastName := v)
    case FirstNameField => d.(firstName := v)
    case EmailField => d.(email := v)
    case PhoneField => d.(phone := v)
    case NotebookTypeField => d.(notebookType := v)
  }

  /** An edited field reads back as the value typed; every other field keeps its text. */
  lemma SetTextReadsBack(d: Draft, f: TextField, g: TextField, v: string)
    ensures TextOf(SetText(d, f, v), f) == v
    ensures g != f ==> TextOf(SetText(d, f, v), g) == TextOf(d, g)
  {
  }

  /** A character the phone pattern's class `[0-9()+\- ]` allows. */
  predicate IsPhoneChar(c: char)
  {
    IsDigit(c) || c == '(' || c == ')' || c == '+' || c == '-' || c == ' '
  }

  /** The phone constraint the pattern `^(?:[0-9()+\- ]{8,})$` expresses:
      optional, but when filled in, eight or more of the allowed characters
      and nothing else. */
  predicate PhoneOk(phone: string)
  {
    phone == "" || (|phone| >= 8 && forall i :: 0 <= i < |phone| ==> IsPhoneChar(phone[i]))
  }

  /** The body of the phone input's character class, as written. */
  const PHONE_CLASS: string := "0-9()+\\- "

  /** The same class with its parentheses escaped. */
  const PHONE_CLASS_ESCAPED: string := "0-9\\(\\)+\\- "

  /** Characters a character class must escape when the pattern is compiled
      with the `v` flag (besides `-` and `\`, which the classes here use
      only as a range and as escapes). */
  predicate IsClassSyntaxChar(c: char)
  {
    c == '(' || c == ')' || c == '[' || c == ']' || c == '{' || c == '}' || c == '/' || c == '|'
  }

  /** The class body is accepted under the `v` flag: every syntax character
      in it is escaped. */
  predicate ClassCompilesUnderV(body: string)
    decreases |body|
  {
    if body == [] then true
    else if body[0] == '\\' then |body| >= 2 && ClassCompilesUnderV(body[2..])
    else !IsClassSyntaxChar(body[0]) && ClassCompilesUnderV(body[1..])
  }

  /** Whether the browser applies the pattern. HTML compiles a `pattern`
      attribute with the `v` flag where the browser supports it (`vFlag`),
      with the `u` flag before that; a pattern that does not compile
      imposes no constraint. Both class bodies here compile under `u`. */
  predicate PatternApplies(body: string, vFlag: bool)
  {
    !vFlag || ClassCompilesUnderV(body)
  }

  /** The class as written does not compile under the `v` flag: its
      parentheses are unescaped. */
  lemma WrittenClassRejectedUnderV()
    ensures !ClassCompilesUnderV(PHONE_CLASS)
    ensures !PatternApplies(PHONE_CLASS, true) && PatternApplies(PHONE_CLASS, false)
  {
    assert PHONE_CLASS[1..] == "-9()+\\- ";
    assert PHONE_CLASS[1..][1..] == "9()+\\- ";
    assert PHONE_CLASS[1..][1..][1..] == "()+\\- ";
  }

  /** The escaped class compiles under either flag. */
  lemma EscapedClassCompiles(vFlag: bool)
    ensures ClassCompilesUnderV(PHONE_CLASS_ESCAPED) && PatternApplies(PHONE_CLASS_ESCAPED, vFlag)
  {
    var b := PHONE_CLASS_ESCAPED;
    assert ClassCompilesUnderV(b[11..]) by { assert b[11..] == []; }
    assert ClassCompilesUnderV(b[10..]) by { assert b[10] == ' ' && b[10..][1..] == b[11..]; }
    assert ClassCompilesUnderV(b[8..]) by { assert b[8] == '\\' && b[8..][2..] == b[10..]; }
    assert ClassCompilesUnderV(b[7..]) by { assert b[7] == '+' && b[7..][1..] == b[8..]; }
    assert ClassCompilesUnderV(b[5..]) by { assert b[5] == '\\' && b[5..][2..] == b[7..]; }
    assert ClassCompilesUnderV(b[3..]) by { assert b[3] == '\\' && b[3..][2..] == b[5..]; }
    assert ClassCompilesUnderV(b[2..]) by { assert b[2] == '9' && b[2..][1..] == b[3..]; }
    assert ClassCompilesUnderV(b[1..]) by { assert b[1] == '-' && b[1..][1..] == b[2..]; }
    assert b[0] == '0';
  }

  /** `form.reportValidity()`: the required inputs are filled in, `emailOk`
      is the browser's verdict on the e-mail syntax, and the phone matches
      its pattern when the pattern applies (`phoneChecked`). The
      certificate radio group is always answered, since the draft always
      holds true or false. */
  predicate FormValid(d: Draft, emailOk: bool, phoneChecked: bool)
  {
    d.date != "" && d.lastName != "" && d.firstName != "" && d.email != "" && emailOk
    && d.notebookType != "" && (phoneChecked ==> PhoneOk(d.phone))
  }

  /** A freshly opened dialog cannot be submitted: the names are empty. */
  lemma OpenedDraftNotSubmittable(initialDate: Option<string>, initialSlot: Option<Slot>, today: CalendarDate, emailOk: bool, phoneChecked: bool)
    requires ValidDate(today)
    ensures !FormValid(OpenedDraft(initialDate, initialSlot, today), emailOk, phoneChecked)
  {
  }

  /** Where the pattern as written is compiled with the `u` flag, a phone
      number of fewer than eight characters is refused. */
  lemma ShortPhoneRefused(d: Draft, emailOk: bool)
    requires 0 < |d.phone| < 8
    ensures !FormValid(d, emailOk, PatternApplies(PHONE_CLASS, false))
  {
  }

  /** Where the pattern is compiled with the `v` flag, the pattern as
      written is ignored, and a draft whose phone is "123" passes when the
      other fields are filled in. */
  lemma ShortPhoneAcceptedUnderV(d: Draft)
    requires d.date != "" && d.lastName != "" && d.firstName != "" && d.email != "" && d.notebookType != ""
    requires d.phone == "123"
    ensures FormValid(d, true, PatternApplies(PHONE_CLASS, true))
    ensures !PhoneOk(d.phone)
  {
    WrittenClassRejectedUnderV();
  }

  /** With the parentheses escaped, a short phone number is refused under
      either flag. */
  lemma EscapedPatternRefusesShortPhone(d: Draft, emailOk: bool, vFlag: bool)
    requires 0 < |d.phone| < 8
    ensures !FormValid(d, emailOk, PatternApplies(PHONE_CLASS_ESCAPED, vFlag))
  {
    EscapedClassCompiles(vFlag);
  }

  class Modal {
    var draft: Draft
    var alerts: seq<string>   // the texts passed to `alert`, oldest first

    /** The dialog never edits the name, the note or the room, and its
        effects keep the draft consistent. */
    predicate Valid()
      reads this
    {
      Consistent(draft) && draft.name == "" && draft.note == "" && draft.room.None?
    }

    constructor ()
      ensures Valid() && draft == EMPTY_DRAFT && alerts == []
    {
      draft := EMPTY_DRAFT;
      alerts := [];
    }

    /** The effect on `open`: a fresh draft with the given date (today's
        by default) and slot (the morning by default). */
    method Open(initialDate: Option<string>, initialSlot: Option<Slot>, today: CalendarDate)
      requires ValidDate(today)
      modifies this
      ensures Valid()
      ensures draft == OpenedDraft(initialDate, initialSlot, today) && alerts == old(alerts)
    {
      draft := OpenedDraft(initialDate, initialSlot, today);
    }

    /** The program select, then the consistency effect. */
    method SelectProgram(v: Unknown)
      requires Valid()
      modifies this
      ensures Valid() && alerts == old(alerts)
      ensures IsProgram(v) ==> draft == Normalize(old(draft).(program := AsProgram(v).value))
      ensures !IsProgram(v) ==> draft == old(draft)
    {
      var p := AsProgram(v);
      if p.Some? {
        draft := draft.(program := p.value);
      }
      if draft.program == Tour && draft.slot == Full {
        draft := draft.(slot := Am);
      }
    }

    /** The slot select, then the consistency effect. */
    method SelectSlot(v: Unknown)
      requires Valid()
      modifies this
      ensures Valid() && alerts == old(alerts)
      ensures IsSlot(v) ==> draft == Normalize(old(draft).(slot := AsSlot(v).value))
      ensures !IsSlot(v) ==> draft == old(draft)
    {
      var s := AsSlot(v);
      if s.Some? {
        draft := draft.(slot := s.value);
      }
      if draft.program == Tour && draft.slot == Full {
        draft := draft.(slot := Am);
      }
    }

    method EditText(f: TextField, v: string)
      requires Valid()
      modifies this
      ensures Valid() && alerts == old(alerts)
      ensures draft == SetText(old(draft), f, v)
    {
      draft := SetText(draft, f, v);
    }

    /** The two certificate radio buttons. */
    method SetCertificate(b: bool)
      requires Valid()
      modifies this
      ensures Valid() && alerts == old(alerts)
      ensures draft == old(draft).(hasCertificate := b)
    {
      draft := draft.(hasCertificate := b);
    }

    /** The form's submit handler. `thrown` is what the caller's `onSubmit`
        rejected with, if anything; its message is alerted. Returns the
        payload handed to `onSubmit`, if it was called. */
    method Submit(emailOk: bool, vFlag: bool, thrown: Option<Thrown>) returns (sent: Option<Draft>)
      requires Valid()
      modifies this
      ensures Valid() && draft == old(draft)
      ensures sent.Some? <==> FormValid(draft, emailOk, PatternApplies(PHONE_CLASS, vFlag))
      ensures sent.Some? ==> sent.value == draft
      ensures sent.Some? && thrown.Some? ==> alerts == old(alerts) + [GetErrorMessage(thrown.value)]
      ensures !(sent.Some? && thrown.Some?) ==> alerts == old(alerts)
    {
      if !FormValid(draft, emailOk, PatternApplies(PHONE_CLASS, vFlag)) {
        return None;
      }
      sent := Some(draft);
      if thrown.Some? {
        alerts := alerts + [GetErrorMessage(thrown.value)];
      }
    }
  }

  /** Choosing "tour" while the full day is selected moves the draft to the
      morning; with "experience" every slot choice stays as chosen. */
  lemma TourMovesFullDayToMorning(d: Draft, s: Slot)
    ensures d.slot == Full ==> Normalize(d.(program := Tour)).slot == Am
    ensures Normalize(d.(program := Experience, slot := s)).slot == s
    ensures s != Full ==> Normalize(d.(slot := s)).slot == s
  {
  }
}
