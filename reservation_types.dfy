/** The shared frontend vocabulary: programs, slots, statuses, the runtime
    type guards `isProgram` and `isSlot`, and `getErrorMessage`. */
module ReservationTypes {
  import opened Wrappers
  import opened Text

  datatype Program = Tour | Experience
  datatype Slot = Am | Pm | Full
  datatype Status = Booked | Cancelled | Done

  function ProgramName(p: Program): string
  {
    match p
    case Tour => "tour"
    case Experience => "experience"
  }

  function SlotName(s: Slot): string
  {
    match s
    case Am => "am"
    case Pm => "pm"
    case Full => "full"
  }

  function StatusName(s: Status): string
  {
    match s
    case Booked => "booked"
    case Cancelled => "cancelled"
    case Done => "done"
  }

  /** A JavaScript value of static type `unknown`, as far as the guards look at it. */
  datatype Unknown = StringValue(text: string) | OtherValue

  /** `isProgram(v)`: strict equality with one of the two program names. */
  predicate IsProgram(v: Unknown)
  {
    v == StringValue("tour") || v == StringValue("experience")
  }

  /** `isSlot(v)`: strict equality with one of the three slot names. */
  predicate IsSlot(v: Unknown)
  {
    v == StringValue("am") || v == StringValue("pm") || v == StringValue("full")
  }

  /** The program a value denotes once `isProgram` has narrowed it. */
  function AsProgram(v: Unknown): (p: Option<Program>)
    ensures p.Some? <==> IsProgram(v)
    ensures p.Some? ==> v == StringValue(ProgramName(p.value))
  {
    if v == StringValue("tour") then Some(Tour)
    else if v == StringValue("experience") then Some(Experience)
    else None
  }

  /** The slot a value denotes once `isSlot` has narrowed it. */
  function AsSlot(v: Unknown): (s: Option<Slot>)
    ensures s.Some? <==> IsSlot(v)
    ensures s.Some? ==> v == StringValue(SlotName(s.value))
  {
    if v == StringValue("am") then Some(Am)
    else if v == StringValue("pm") then Some(Pm)
    else if v == StringValue("full") then Some(Full)
    else None
  }

  /** Every program name passes `isProgram` and reads back as itself, and
      likewise for slots: the guards accept exactly the names of the types. */
  lemma GuardsAcceptExactlyTheNames(p: Program, s: Slot)
    ensures IsProgram(StringValue(ProgramName(p))) && AsProgram(StringValue(ProgramName(p))) == Some(p)
    ensures IsSlot(StringValue(SlotName(s))) && AsSlot(StringValue(SlotName(s))) == Some(s)
  {
  }

  /** No value is both a program and a slot. */
  lemma ProgramAndSlotDisjoint(v: Unknown)
    ensures !(IsProgram(v) && IsSlot(v))
  {
  }

  /** `isSlot` knows nothing of programs: "full" passes although a tour
      may not use it. */
  lemma FullPassesSlotGuard()
    ensures IsSlot(StringValue("full")) && AsSlot(StringValue("full")) == Some(Full)
  {
  }

  /** What a `catch` clause received. */
  datatype Thrown =
    | ErrorInstance(message: string)  // an `Error` object
    | NonError(asString: string)      // any other value, with the text `String(e)` gives it

  /** `getErrorMessage(e)`. */
  function GetErrorMessage(e: Thrown): (text: string)
    ensures e.ErrorInstance? ==> text == e.message
    ensures e.NonError? ==> text == e.asString
  {
    match e
    case ErrorInstance(m) => m
    case NonError(s) => s
  }

  /** The PATCH payload: a status and nothing else. */
  datatype UpdatePayload = UpdatePayload(status: Status)

  /** The JSON object the payload is sent as, as its list of key/value pairs. */
  function PatchBody(p: UpdatePayload): (fields: seq<(string, string)>)
    ensures |fields| == 1 && fields[0].0 == "status"
    ensures fields[0].1 == "booked" || fields[0].1 == "cancelled" || fields[0].1 == "done"
  {
    [("status", StatusName(p.status))]
  }

  /** The status names identify the statuses. */
  lemma StatusNamesDistinct(a: Status, b: Status)
    ensures StatusName(a) == StatusName(b) <==> a == b
  {
  }

  /** A reservation as the API returns it. `id` and `status` may be absent,
      the personal fields absent or null (both read as None). Fields no page
      logic reads (start_at, end_at, contact, note, room, timestamps) are
      not carried. */
  datatype Reservation = Reservation(
    id: Option<int>,
    date: string,
    program: string,
    slot: string,
    name: Option<string>,
    status: Option<string>,
    lastName: Option<string>,
    firstName: Option<string>,
    email: Option<string>,
    phone: Option<string>,
    notebookType: Option<string>,
    hasCertificate: Option<bool>)

  /** `js.message || fallback`: an absent or empty message gives the fallback. */
  function MessageOr(jsMessage: Option<string>, fallback: string): (text: string)
    ensures jsMessage.Some? && jsMessage.value != "" ==> text == jsMessage.value
    ensures jsMessage.None? || jsMessage.value == "" ==> text == fallback
    ensures fallback != "" ==> text != ""
  {
    if jsMessage.Some? && jsMessage.value != "" then jsMessage.value else fallback
  }

  /** `` `${what}（${status}）` ``: a failure text that carries the HTTP status. */
  function WithStatus(what: string, status: int): (text: string)
  {
    what + "（" + IntToString(status) + "）"
  }

  /** `` `GET /reservations failed: ${status}` ``. */
  function LoadFailedText(status: int): string
  {
    "GET /reservations failed: " + IntToString(status)
  }

  /** What a GET, PATCH or DELETE request came back with. */
  datatype Reply<T> =
    | Ok(body: T)                                   // a 2xx answer and its JSON
    | NotOk(status: int, jsMessage: Option<string>) // any other status and the `message` of its JSON, if any
    | Failed(message: string)                       // the request itself threw

  /** The error text shown for a failed request. */
  function FailureText<T>(reply: Reply<T>, what: string): (text: string)
    requires !reply.Ok?
    ensures reply.Failed? ==> text == reply.message
    ensures reply.NotOk? ==> text == MessageOr(reply.jsMessage, WithStatus(what, reply.status))
  {
    match reply
    case NotOk(status, js) => MessageOr(js, WithStatus(what, status))
    case Failed(m) => m
  }
}
