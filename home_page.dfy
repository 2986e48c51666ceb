/** The public page: a search filter turned into a query string, the
    booking form with its client-side checks, and the list with status
    updates and deletion. */
module HomePage {
  import opened Wrappers
  import opened Text
  import opened ReservationTypes
  import opened ReservationLists
  import ExceptionHandler

  // ---------------------------------------------------------------------
  // application/x-www-form-urlencoded, as URLSearchParams writes it

  /** The number of bytes a UTF-8 sequence has, by its first byte; 0 for
      a byte that cannot start one. */
  function LeadLength(b: nat): nat
  {
    if b < 0x80 then 1
    else if 0xC0 <= b < 0xE0 then 2
    else if 0xE0 <= b < 0xF0 then 3
    else if 0xF0 <= b < 0xF8 then 4
    else 0
  }

  /** The UTF-8 bytes of one character. */
  function Utf8(c: char): (bytes: seq<nat>)
    ensures 1 <= |bytes| <= 4 && LeadLength(bytes[0]) == |bytes|
    ensures forall i :: 0 <= i < |bytes| ==> bytes[i] < 256
    ensures forall i :: 1 <= i < |bytes| ==> 0x80 <= bytes[i] < 0xC0
    ensures (c as int < 0x80) <==> |bytes| == 1
    ensures |bytes| == 1 ==> bytes[0] == c as int
  {
    var n := c as int;
    var q1 := n / 0x40;
    var q2 := q1 / 0x40;
    var q3 := q2 / 0x40;
    if n < 0x80 then [n]
    else if n < 0x800 then [0xC0 + q1, 0x80 + n % 0x40]
    else if n < 0x10000 then [0xE0 + q2, 0x80 + q1 % 0x40, 0x80 + n % 0x40]
    else [0xF0 + q3, 0x80 + q2 % 0x40, 0x80 + q1 % 0x40, 0x80 + n % 0x40]
  }

  /** The character a UTF-8 sequence encodes: its first byte gives the
      length, the others are continuation bytes, and the value is a Unicode
      scalar value. Overlong forms are not rejected. */
  function Utf8Decode(bytes: seq<nat>): Option<char>
  {
    if |bytes| == 0 || LeadLength(bytes[0]) != |bytes| then None
    else if exists i :: 1 <= i < |bytes| && !(0x80 <= bytes[i] < 0xC0) then None
    else
      var n: int :=
        if |bytes| == 1 then bytes[0]
        else if |bytes| == 2 then (bytes[0] - 0xC0) * 0x40 + (bytes[1] - 0x80)
        else if |bytes| == 3 then ((bytes[0] - 0xE0) * 0x40 + (bytes[1] - 0x80)) * 0x40 + (bytes[2] - 0x80)
        else (((bytes[0] - 0xF0) * 0x40 + (bytes[1] - 0x80)) * 0x40 + (bytes[2] - 0x80)) * 0x40 + (bytes[3] - 0x80);
      if 0 <= n < 0xD800 || 0xE000 <= n < 0x11_0000 then Some(n as char) else None
  }

  /** Decoding the UTF-8 bytes of a character gives the character back. */
  lemma Utf8RoundTrip(c: char)
    ensures Utf8Decode(Utf8(c)) == Some(c)
  {
    var n := c as int;
    var q1 := n / 0x40;
    var q2 := q1 / 0x40;
    assert n == q1 * 0x40 + n % 0x40;
    assert q1 == q2 * 0x40 + q1 % 0x40;
    assert q2 == (q2 / 0x40) * 0x40 + q2 % 0x40;
  }

  /** The bytes the serializer leaves as they are. */
  predicate IsSafe(c: char)
  {
    ('a' <= c <= 'z') || ('A' <= c <= 'Z') || ('0' <= c <= '9') || c == '*' || c == '-' || c == '.' || c == '_'
  }

  predicate IsHexDigit(c: char)
  {
    ('0' <= c <= '9') || ('A' <= c <= 'F') || ('a' <= c <= 'f')
  }

  /** The value of a hexadecimal digit, either case. */
  function HexValue(c: char): (d: nat)
    requires IsHexDigit(c)
    ensures d < 16
  {
    if '0' <= c <= '9' then c as int - '0' as int
    else if 'A' <= c <= 'F' then c as int - 'A' as int + 10
    else c as int - 'a' as int + 10
  }

  /** The upper-case hexadecimal digit worth `d`. */
  function HexDigit(d: nat): (c: char)
    requires d < 16
    ensures ('0' <= c <= '9') || ('A' <= c <= 'F')
    ensures IsHexDigit(c) && HexValue(c) == d
  {
    if d < 10 then ('0' as int + d) as char else ('A' as int + d - 10) as char
  }

  /** `%XX` for one byte. */
  function Escape(b: nat): (r: string)
    requires b < 256
    ensures |r| == 3 && r[0] == '%' && IsHexDigit(r[1]) && IsHexDigit(r[2])
    ensures 16 * HexValue(r[1]) + HexValue(r[2]) == b
  {
    assert 16 * (b / 16) + b % 16 == b;
    ['%', HexDigit(b / 16), HexDigit(b % 16)]
  }

  /** `%XX` for each byte, upper-case hex. */
  function PercentBytes(bytes: seq<nat>): (r: string)
    requires forall i :: 0 <= i < |bytes| ==> bytes[i] < 256
    ensures |r| == 3 * |bytes|
    ensures forall i :: 0 <= i < |r| ==> r[i] == '%' || ('0' <= r[i] <= '9') || ('A' <= r[i] <= 'F')
  {
    if bytes == [] then ""
    else Escape(bytes[0]) + PercentBytes(bytes[1..])
  }

  /** Escape `i` of the result is '%' and two hex digits worth byte `i`. */
  lemma {:induction false} PercentBytesDigits(bytes: seq<nat>)
    requires forall i :: 0 <= i < |bytes| ==> bytes[i] < 256
    ensures forall i :: 0 <= i < |bytes| ==>
      PercentBytes(bytes)[3 * i] == '%' &&
      IsHexDigit(PercentBytes(bytes)[3 * i + 1]) && IsHexDigit(PercentBytes(bytes)[3 * i + 2]) &&
      16 * HexValue(PercentBytes(bytes)[3 * i + 1]) + HexValue(PercentBytes(bytes)[3 * i + 2]) == bytes[i]
    decreases |bytes|
  {
    if bytes != [] {
      var r := PercentBytes(bytes);
      var rest := PercentBytes(bytes[1..]);
      PercentBytesDigits(bytes[1..]);
      forall i | 0 <= i < |bytes|
        ensures r[3 * i] == '%' && IsHexDigit(r[3 * i + 1]) && IsHexDigit(r[3 * i + 2]) &&
          16 * HexValue(r[3 * i + 1]) + HexValue(r[3 * i + 2]) == bytes[i]
      {
        if i > 0 {
          var j := i - 1;
          assert bytes[i] == bytes[1..][j];
          assert r[3 * i] == rest[3 * j] && r[3 * i + 1] == rest[3 * j + 1] && r[3 * i + 2] == rest[3 * j + 2];
        }
      }
    }
  }

  /** One character: space becomes '+', safe characters stay, the rest are
      escaped byte by byte. */
  function EncodeChar(c: char): (r: string)
    ensures |r| >= 1
    ensures forall i :: 0 <= i < |r| ==> r[i] != '&' && r[i] != '='
    ensures c == ' ' ==> r == "+"
    ensures IsSafe(c) ==> r == [c]
    ensures c != ' ' && !IsSafe(c) ==> r[0] == '%' && |r| == 3 * |Utf8(c)|
  {
    if c == ' ' then "+"
    else if IsSafe(c) then [c]
    else PercentBytes(Utf8(c))
  }

  function FormEncode(s: string): (r: string)
    ensures |r| >= |s|
    ensures forall i :: 0 <= i < |r| ==> r[i] != '&' && r[i] != '='
  {
    if s == [] then "" else EncodeChar(s[0]) + FormEncode(s[1..])
  }

  /** `count` escapes `%XX` read off the front of `s`, as byte values. */
  function ReadEscapes(s: string, count: nat): (r: Option<seq<nat>>)
    ensures r.Some? ==> |r.value| == count && |s| >= 3 * count
  {
    if count == 0 then Some([])
    else if |s| >= 3 && s[0] == '%' && IsHexDigit(s[1]) && IsHexDigit(s[2]) then
      match ReadEscapes(s[3..], count - 1)
      case None => None
      case Some(rest) => Some([16 * HexValue(s[1]) + HexValue(s[2])] + rest)
    else None
  }

  function OptCons(c: char, r: Option<string>): Option<string>
  {
    if r.Some? then Some([c] + r.value) else None
  }

  /** Reading a form-encoded value back: '+' is a space, a run of escapes
      is one UTF-8 encoded character, anything else stands for itself. */
  function FormDecode(s: string): Option<string>
    decreases |s|
  {
    if s == [] then Some([])
    else if s[0] == '+' then OptCons(' ', FormDecode(s[1..]))
    else if s[0] != '%' then OptCons(s[0], FormDecode(s[1..]))
    else
      match ReadEscapes(s, 1)
      case None => None
      case Some(lead) =>
        var len := LeadLength(lead[0]);
        if len == 0 then None
        else
          match ReadEscapes(s, len)
          case None => None
          case Some(bytes) =>
            match Utf8Decode(bytes)
            case None => None
            case Some(c) => OptCons(c, FormDecode(s[3 * len..]))
  }

  /** Reading escapes from a text that starts with the escape of `b`
      gives `b`, then what the rest gives. */
  lemma ReadOneEscape(b: nat, u: string, k: nat)
    requires b < 256
    ensures ReadEscapes(Escape(b) + u, k + 1) ==
      if ReadEscapes(u, k).Some? then Some([b] + ReadEscapes(u, k).value) else None
  {
    assert (Escape(b) + u)[3..] == u;
  }

  /** The escapes of a byte sequence read back as that sequence. */
  lemma {:induction false} ReadEscapesPercent(bytes: seq<nat>, t: string)
    requires forall i :: 0 <= i < |bytes| ==> bytes[i] < 256
    ensures ReadEscapes(PercentBytes(bytes) + t, |bytes|) == Some(bytes)
    decreases |bytes|
  {
    if bytes != [] {
      var u := PercentBytes(bytes[1..]) + t;
      assert PercentBytes(bytes) + t == Escape(bytes[0]) + u;
      ReadEscapesPercent(bytes[1..], t);
      ReadOneEscape(bytes[0], u, |bytes| - 1);
      assert bytes == [bytes[0]] + bytes[1..];
    }
  }

  /** One step of `FormDecode` on a text that starts with the escapes of
      a whole UTF-8 sequence. */
  lemma DecodeEscapes(s: string, bytes: seq<nat>, c: char, t: string)
    requires 1 <= |bytes| && LeadLength(bytes[0]) == |bytes|
    requires ReadEscapes(s, 1) == Some([bytes[0]]) && ReadEscapes(s, |bytes|) == Some(bytes)
    requires Utf8Decode(bytes) == Some(c) && s[3 * |bytes|..] == t
    ensures FormDecode(s) == OptCons(c, FormDecode(t))
  {
    assert s[0] == '%';
  }

  /** Decoding the escapes of a character's UTF-8 bytes, followed by more
      text, gives the character followed by the decoded rest. */
  lemma DecodeEscapedFront(c: char, t: string)
    ensures FormDecode(PercentBytes(Utf8(c)) + t) == OptCons(c, FormDecode(t))
  {
    var bytes := Utf8(c);
    var s := PercentBytes(bytes) + t;
    var rest := PercentBytes(bytes[1..]) + t;
    assert PercentBytes(bytes) == PercentBytes([bytes[0]]) + PercentBytes(bytes[1..]);
    assert s == PercentBytes([bytes[0]]) + rest;
    ReadEscapesPercent([bytes[0]], rest);
    ReadEscapesPercent(bytes, t);
    Utf8RoundTrip(c);
    assert s[3 * |bytes|..] == t;
    DecodeEscapes(s, bytes, c, t);
  }

  /** Decoding an encoded character followed by more text gives the
      character followed by the decoded rest. */
  lemma DecodeFront(c: char, t: string)
    ensures FormDecode(EncodeChar(c) + t) == OptCons(c, FormDecode(t))
  {
    if c == ' ' || IsSafe(c) {
      assert (EncodeChar(c) + t)[1..] == t;
    } else {
      DecodeEscapedFront(c, t);
    }
  }

  /** Decoding the form encoding of a value gives the value back. */
  lemma {:induction false} FormRoundTrip(s: string)
    ensures FormDecode(FormEncode(s)) == Some(s)
    decreases |s|
  {
    if s != [] {
      DecodeFront(s[0], FormEncode(s[1..]));
      FormRoundTrip(s[1..]);
      assert [s[0]] + s[1..] == s;
    }
  }

  /** A separator character in a value is escaped: "&" is written "%26". */
  lemma AmpersandEscaped()
    ensures FormEncode("&") == "%26"
  {
    assert Utf8('&') == [0x26];
    assert FormEncode("&") == EncodeChar('&') + FormEncode([]);
  }

  /** Values made only of safe characters, such as "2025-09-14", "tour" or
      "am", are written as they are. */
  lemma {:induction false} SafeValuesVerbatim(s: string)
    requires forall i :: 0 <= i < |s| ==> IsSafe(s[i])
    ensures FormEncode(s) == s
    decreases |s|
  {
    if s != [] {
      SafeValuesVerbatim(s[1..]);
    }
  }

  /** A non-ASCII character becomes two to four escapes. */
  lemma NonAsciiEscaped(c: char)
    requires c as int >= 0x80
    ensures |FormEncode([c])| == 3 * |Utf8(c)| && FormEncode([c])[0] == '%'
  {
    assert FormEncode([c]) == EncodeChar(c) + FormEncode([]);
  }

  // ---------------------------------------------------------------------
  // buildQuery

  /** The search filter; "" means not set. */
  datatype SearchFilter = SearchFilter(date: string, program: string, slot: string)

  const INITIAL_FILTER: SearchFilter := SearchFilter("", "", "")

  /** The filter field a query key carries. */
  function FieldOf(f: SearchFilter, key: string): string
  {
    if key == "date" then f.date else if key == "program" then f.program else f.slot
  }

  /** The position of a key in the order `params.set` is called. */
  function KeyRank(key: string): nat
  {
    if key == "date" then 0 else if key == "program" then 1 else 2
  }

  /** The parameters `params.set` receives, in order. */
  function Params(f: SearchFilter): (ps: seq<(string, string)>)
    ensures |ps| <= 3
    ensures forall i :: 0 <= i < |ps| ==> ps[i].0 in QUERY_KEYS && ps[i].1 != ""
    ensures forall i :: 0 <= i < |ps| ==> ps[i].1 == FieldOf(f, ps[i].0)
    ensures forall i, j :: 0 <= i < j < |ps| ==> KeyRank(ps[i].0) < KeyRank(ps[j].0)
    ensures forall k :: k in QUERY_KEYS ==> ((exists i :: 0 <= i < |ps| && ps[i].0 == k) <==> FieldOf(f, k) != "")
    ensures |ps| == 0 <==> f.date == "" && f.program == "" && f.slot == ""
  {
    var d := if f.date != "" then [("date", f.date)] else [];
    var p := if f.program != "" then [("program", f.program)] else [];
    var s := if f.slot != "" then [("slot", f.slot)] else [];
    var ps := d + p + s;
    assert f.date != "" ==> ps[0].0 == "date";
    assert f.program != "" ==> ps[|d|].0 == "program";
    assert f.slot != "" ==> ps[|d| + |p|].0 == "slot";
    ps
  }

  const QUERY_KEYS: set<string> := {"date", "program", "slot"}

  /** `key=value` with the value form-encoded. */
  function Pair(p: (string, string)): string
  {
    p.0 + "=" + FormEncode(p.1)
  }

  function Pairs(ps: seq<(string, string)>): (r: seq<string>)
    ensures |r| == |ps|
    ensures forall i :: 0 <= i < |ps| ==> r[i] == Pair(ps[i])
  {
    seq(|ps|, i requires 0 <= i < |ps| => Pair(ps[i]))
  }

  /** `buildQuery()`. */
  function BuildQuery(f: SearchFilter): string
  {
    var qs := Join(Pairs(Params(f)), '&');
    if qs != "" then "?" + qs else ""
  }

  /** None of the three keys contains '&'. */
  lemma KeysHaveNoSeparator(key: string)
    requires key in QUERY_KEYS
    ensures forall j :: 0 <= j < |key| ==> key[j] != '&'
  {
  }

  /** A pair whose key has no '&' has none at all: the encoded value cannot. */
  lemma PairHasNoSeparator(p: (string, string))
    requires forall j :: 0 <= j < |p.0| ==> p.0[j] != '&'
    ensures '&' !in Pair(p)
  {
    var e := FormEncode(p.1);
    var s := Pair(p);
    forall j | 0 <= j < |s|
      ensures s[j] != '&'
    {
      if j < |p.0| {
        assert s[j] == p.0[j];
      } else if j > |p.0| {
        assert s[j] == e[j - |p.0| - 1];
      }
    }
  }

  lemma JoinNonEmpty(parts: seq<string>, sep: char)
    requires |parts| >= 1 && parts[0] != ""
    ensures Join(parts, sep) != ""
  {
    if |parts| > 1 {
      assert Join(parts, sep) == parts[0] + [sep] + Join(parts[1..], sep);
    }
  }

  /** The query is "" exactly when no filter is set. */
  lemma QueryEmptyIff(f: SearchFilter)
    ensures BuildQuery(f) == "" <==> f.date == "" && f.program == "" && f.slot == ""
  {
    var ps := Params(f);
    var parts := Pairs(ps);
    if |ps| > 0 {
      assert |parts[0]| > 0 by {
        assert parts[0] == ps[0].0 + "=" + FormEncode(ps[0].1);
      }
      JoinNonEmpty(parts, '&');
    }
  }

  /** A non-empty query is "?" followed by the `key=value` pairs of the set
      filters, in the order date, program, slot: splitting it on '&' gives
      those pairs back. */
  lemma QuerySplitsIntoPairs(f: SearchFilter)
    requires BuildQuery(f) != ""
    ensures BuildQuery(f)[0] == '?'
    ensures Split(BuildQuery(f)[1..], '&') == Pairs(Params(f))
  {
    var ps := Params(f);
    var parts := Pairs(ps);
    forall k | 0 <= k < |parts|
      ensures '&' !in parts[k]
    {
      KeysHaveNoSeparator(ps[k].0);
      PairHasNoSeparator(ps[k]);
    }
    SplitJoin(parts, '&');
  }

  // ---------------------------------------------------------------------
  // The booking form

  datatype Form = Form(date: string, program: string, slot: string, name: string)

  /** The form on mount: tomorrow's date, an experience in the morning, no name. */
  function InitialForm(tomorrow: string): Form
  {
    Form(tomorrow, "experience", "am", "")
  }

  const NAME_REQUIRED: string := "お名前を入力してください"
  const DATE_REQUIRED: string := "日付を入力してください"
  const CONFLICT_FALLBACK: string := "その時間帯は埋まっています"

  const CREATED: string := "予約を作成しました"
  const CREATE_FAILED: string := "予約の作成に失敗しました"

  /** The form passes the client-side checks. */
  predicate FormAccepted(form: Form)
  {
    Trim(form.name) != "" && form.date != ""
  }

  /** The client-side checks, in order: a name that is not blank, then a date. */
  function Validate(form: Form): (problem: Option<string>)
    ensures problem.None? <==> FormAccepted(form)
    ensures Trim(form.name) == "" ==> problem == Some(NAME_REQUIRED)
    ensures Trim(form.name) != "" && form.date == "" ==> problem == Some(DATE_REQUIRED)
  {
    if Trim(form.name) == "" then Some(NAME_REQUIRED)
    else if form.date == "" then Some(DATE_REQUIRED)
    else None
  }

  /** A name of spaces only is refused. */
  lemma BlankNameRefused(form: Form)
    requires forall i :: 0 <= i < |form.name| ==> IsJsSpace(form.name[i])
    ensures Validate(form) == Some(NAME_REQUIRED)
  {
    TrimEmptyIff(form.name);
  }

  /** The fields of the POST body, in order; contact, note and room are not sent. */
  const POST_KEYS: seq<string> := ["date", "program", "slot", "name"]

  /** The POST body: the four form fields, and nothing else. */
  function PostBody(form: Form): (body: seq<(string, string)>)
    ensures |body| == |POST_KEYS|
    ensures forall i :: 0 <= i < |body| ==> body[i].0 == POST_KEYS[i]
    ensures body[0].1 == form.date && body[1].1 == form.program && body[2].1 == form.slot && body[3].1 == form.name
  {
    [("date", form.date), ("program", form.program), ("slot", form.slot), ("name", form.name)]
  }

  /** The error text for a failed create or status update: a 409 shows the
      server's message or the fixed conflict text; any other failure the
      server's message or "<what>（<status>）". */
  function FailureText409<T>(reply: Reply<T>, what: string): (text: string)
    requires !reply.Ok?
    ensures reply.NotOk? && reply.status == 409 ==> text == MessageOr(reply.jsMessage, CONFLICT_FALLBACK)
    ensures !(reply.NotOk? && reply.status == 409) ==> text == FailureText(reply, what)
  {
    if reply.NotOk? && reply.status == 409 then MessageOr(reply.jsMessage, CONFLICT_FALLBACK)
    else FailureText(reply, what)
  }

  /** A conflict answered by the server's exception handler reaches the
      user as the same sentence the page would show by itself. */
  lemma ServerConflictShownVerbatim(e: ExceptionHandler.Exception, expectsJson: bool, what: string)
    requires ExceptionHandler.IsConflict(ExceptionHandler.Render(e, expectsJson))
    ensures FailureText409(Reply<()>.NotOk(409, Some(ExceptionHandler.Render(e, expectsJson).message)), what) == CONFLICT_FALLBACK
    ensures FailureText409(Reply<()>.NotOk(409, None), what) == CONFLICT_FALLBACK
  {
    ExceptionHandler.ConflictIff(e, expectsJson);
  }

  class Page {
    var items: Option<seq<Reservation>>
    var submitting: bool
    var error: Option<string>
    var success: Option<string>
    var form: Form
    var filter: SearchFilter

    constructor (tomorrow: string)
      ensures items.None? && !submitting && error.None? && success.None?
      ensures form == InitialForm(tomorrow) && filter == INITIAL_FILTER
    {
      items := None;
      submitting := false;
      error := None;
      success := None;
      form := InitialForm(tomorrow);
      filter := INITIAL_FILTER;
    }

    /** The URL suffix the next list request uses. */
    function Query(): string
      reads this
    {
      BuildQuery(filter)
    }

    method SetFilter(f: SearchFilter)
      modifies this
      ensures filter == f && form == old(form) && items == old(items)
      ensures error == old(error) && success == old(success) && submitting == old(submitting)
    {
      filter := f;
    }

    method EditForm(f: Form)
      modifies this
      ensures form == f && filter == old(filter) && items == old(items)
      ensures error == old(error) && success == old(success) && submitting == old(submitting)
    {
      form := f;
    }

    /** `fetchReservations`. */
    method Load(reply: Reply<seq<Reservation>>)
      modifies this
      ensures reply.Ok? ==> items == Some(reply.body) && error.None?
      ensures reply.NotOk? ==> items == old(items) && error == Some(LoadFailedText(reply.status))
      ensures reply.Failed? ==> items == old(items) && error == Some(reply.message)
      ensures form == old(form) && filter == old(filter) && success == old(success) && submitting == old(submitting)
    {
      error := None;
      match reply {
        case Ok(data) => items := Some(data);
        case NotOk(status, _) => error := Some(LoadFailedText(status));
        case Failed(m) => error := Some(m);
      }
    }

    /** `onSubmit`: returns the form it POSTed (as `PostBody`), if it got
        that far. A created reservation goes to the front of the list and
        only the name is cleared. */
    method OnSubmit(reply: Reply<Reservation>) returns (sent: Option<Form>)
      modifies this
      ensures !submitting && filter == old(filter)
      ensures sent.Some? <==> FormAccepted(old(form))
      ensures !FormAccepted(old(form)) ==>
        error == Validate(old(form)) && success.None? && items == old(items) && form == old(form)
      ensures FormAccepted(old(form)) ==> sent == Some(old(form))
      ensures FormAccepted(old(form)) && reply.Ok? ==>
        items == Some(Prepend(old(items), reply.body)) && form == old(form).(name := "") &&
        success == Some(CREATED) && error.None?
      ensures FormAccepted(old(form)) && !reply.Ok? ==>
        items == old(items) && form == old(form) && success.None? &&
        error == Some(FailureText409(reply, CREATE_FAILED))
    {
      submitting := true;
      error := None;
      success := None;
      var problem := Validate(form);
      if problem.Some? {
        error := problem;
        sent := None;
      } else {
        sent := Some(form);
        if reply.Ok? {
          success := Some(CREATED);
          items := Some(Prepend(items, reply.body));
          form := form.(name := "");
        } else {
          error := Some(FailureText409(reply, CREATE_FAILED));
        }
      }
      submitting := false;
    }

    /** `updateStatus(id, status)` with the server's reply. */
    method UpdateStatus(id: int, status: Status, reply: Reply<Reservation>)
      modifies this
      ensures reply.Ok? ==>
        items == (if old(items).Some? then Some(ReplaceById(old(items).value, id, reply.body)) else None) &&
        success == Some("状態を更新しました") && error.None?
      ensures !reply.Ok? ==>
        items == old(items) && success.None? && error == Some(FailureText409(reply, "更新に失敗しました"))
      ensures form == old(form) && filter == old(filter) && submitting == old(submitting)
    {
      error := None;
      success := None;
      if reply.Ok? {
        if items.Some? {
          items := Some(ReplaceById(items.value, id, reply.body));
        }
        success := Some("状態を更新しました");
      } else {
        error := Some(FailureText409(reply, "更新に失敗しました"));
      }
    }

    /** `deleteReservation(id)`: nothing at all happens unless confirmed. */
    method DeleteReservation(id: int, confirmed: bool, reply: Reply<()>)
      modifies this
      ensures !confirmed ==> items == old(items) && error == old(error) && success == old(success)
      ensures confirmed && reply.Ok? ==>
        items == (if old(items).Some? then Some(RemoveById(old(items).value, id)) else None) &&
        success == Some("削除しました") && error.None?
      ensures confirmed && !reply.Ok? ==>
        items == old(items) && success.None? && error == Some(FailureText(reply, "削除に失敗しました"))
      ensures form == old(form) && filter == old(filter) && submitting == old(submitting)
    {
      if !confirmed {
        return;
      }
      error := None;
      success := None;
      if reply.Ok? {
        if items.Some? {
          items := Some(RemoveById(items.value, id));
        }
        success := Some("削除しました");
      } else {
        error := Some(FailureText(reply, "削除に失敗しました"));
      }
    }
  }
}
