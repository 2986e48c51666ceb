/** The admin page: a PIN gate, the reservation list with status updates
    and deletion, and the client-side filter panel (date range, program,
    slot, status, certificate, keyword). */
module AdminPage {
  import opened Wrappers
  import opened Text
  import opened ReservationTypes
  import opened ReservationLists

  /** The filter panel. Selects hold "all" or one of their option values. */
  datatype Filters = Filters(
    dateFrom: string,
    dateTo: string,
    program: string,
    slot: string,
    status: string,
    hasCertificate: string,
    keyword: string)

  const INITIAL_FILTERS: Filters := Filters("", "", "all", "all", "all", "all", "")

  /** A `Partial<Filters>`: the fields one control changes. */
  datatype FilterPatch = FilterPatch(
    dateFrom: Option<string>,
    dateTo: Option<string>,
    program: Option<string>,
    slot: Option<string>,
    status: Option<string>,
    hasCertificate: Option<string>,
    keyword: Option<string>)

  const NO_PATCH: FilterPatch := FilterPatch(None, None, None, None, None, None, None)

  /** `{ ...f, ...patch }`. */
  function Merge(f: Filters, p: FilterPatch): (r: Filters)
    ensures r.dateFrom == p.dateFrom.GetOr(f.dateFrom) && r.dateTo == p.dateTo.GetOr(f.dateTo)
    ensures r.program == p.program.GetOr(f.program) && r.slot == p.slot.GetOr(f.slot)
    ensures r.status == p.status.GetOr(f.status)
    ensures r.hasCertificate == p.hasCertificate.GetOr(f.hasCertificate)
    ensures r.keyword == p.keyword.GetOr(f.keyword)
  {
    Filters(p.dateFrom.GetOr(f.dateFrom), p.dateTo.GetOr(f.dateTo), p.program.GetOr(f.program),
            p.slot.GetOr(f.slot), p.status.GetOr(f.status), p.hasCertificate.GetOr(f.hasCertificate),
            p.keyword.GetOr(f.keyword))
  }

  /** An empty patch changes nothing, and applying a patch twice is applying it once. */
  lemma MergeLaws(f: Filters, p: FilterPatch)
    ensures Merge(f, NO_PATCH) == f
    ensures Merge(Merge(f, p), p) == Merge(f, p)
  {
  }

  /** `date.slice(0, 10)`. */
  function DateKey(r: Reservation): (key: string)
    ensures |key| == if |r.date| < 10 then |r.date| else 10
    ensures key <= r.date
  {
    if |r.date| <= 10 then r.date else r.date[..10]
  }

  /** The lower-cased text the keyword is searched in: the six name-like
      fields, missing ones as "", joined by spaces. */
  function Haystack(r: Reservation): string
  {
    Lower(Join([r.lastName.GetOr(""), r.firstName.GetOr(""), r.email.GetOr(""), r.phone.GetOr(""),
                r.notebookType.GetOr(""), r.name.GetOr("")], ' '))
  }

  /** `filters.keyword.trim().toLowerCase()`. */
  function NormalizedKeyword(f: Filters): string
  {
    Lower(Trim(f.keyword))
  }

  /** The tests of the `items.filter` callback that do not look at the keyword. */
  predicate PassesFields(r: Reservation, f: Filters)
  {
    var key := DateKey(r);
    !(f.dateFrom != "" && LexLess(key, f.dateFrom))
    && !(f.dateTo != "" && LexLess(f.dateTo, key))
    && !(f.program != "all" && r.program != f.program)
    && !(f.slot != "all" && r.slot != f.slot)
    && !(f.status != "all" && r.status.GetOr("booked") != f.status)
    && !(f.hasCertificate != "all" && f.hasCertificate == "yes" && r.hasCertificate != Some(true))
    && !(f.hasCertificate != "all" && f.hasCertificate == "no" && r.hasCertificate == Some(true))
  }

  /** The keyword test: an empty normalized keyword passes everything. */
  predicate KeywordTest(r: Reservation, kw: string)
  {
    kw == "" || Contains(Haystack(r), kw)
  }

  /** The callback of `items.filter`. */
  predicate Keep(r: Reservation, f: Filters)
  {
    PassesFields(r, f) && KeywordTest(r, NormalizedKeyword(f))
  }

  /** The items `Keep` accepts, in their order. */
  function FilterItems(items: seq<Reservation>, f: Filters): (r: seq<Reservation>)
    ensures forall x :: x in r <==> x in items && Keep(x, f)
    ensures forall x :: multiset(r)[x] == if Keep(x, f) then multiset(items)[x] else 0
    ensures Subsequence(r, items)
  {
    if items == [] then []
    else
      assert items == [items[0]] + items[1..];
      if Keep(items[0], f) then [items[0]] + FilterItems(items[1..], f)
      else FilterItems(items[1..], f)
  }

  /** `filteredItems`: null while nothing is loaded. */
  function FilteredItems(items: Option<seq<Reservation>>, f: Filters): (r: Option<seq<Reservation>>)
    ensures r.None? <==> items.None?
    ensures r.Some? ==>
      Subsequence(r.value, items.value) &&
      forall x :: x in r.value <==> x in items.value && Keep(x, f)
  {
    if items.None? then None else Some(FilterItems(items.value, f))
  }

  /** With the initial filters every reservation passes. */
  lemma InitialFiltersKeepAll(r: Reservation)
    ensures Keep(r, INITIAL_FILTERS)
  {
    assert INITIAL_FILTERS.keyword == "";
    assert Trim("") == "";
  }

  lemma {:induction false} FilterAllKept(items: seq<Reservation>, f: Filters)
    requires forall x :: x in items ==> Keep(x, f)
    ensures FilterItems(items, f) == items
    decreases |items|
  {
    if items != [] {
      FilterAllKept(items[1..], f);
    }
  }

  /** With the initial filters `filteredItems` is `items`. */
  lemma InitialFiltersShowEverything(items: Option<seq<Reservation>>)
    ensures FilteredItems(items, INITIAL_FILTERS) == items
  {
    if items.Some? {
      forall x | x in items.value ensures Keep(x, INITIAL_FILTERS) {
        InitialFiltersKeepAll(x);
      }
      FilterAllKept(items.value, INITIAL_FILTERS);
    }
  }

  /** Filtering a filtered list changes nothing. */
  lemma FilterIdempotent(items: seq<Reservation>, f: Filters)
    ensures FilterItems(FilterItems(items, f), f) == FilterItems(items, f)
  {
    FilterAllKept(FilterItems(items, f), f);
  }

  /** Deleting a reservation and filtering commute. */
  lemma {:induction false} FilterCommutesWithRemove(items: seq<Reservation>, f: Filters, id: int)
    ensures FilterItems(RemoveById(items, id), f) == RemoveById(FilterItems(items, f), id)
    decreases |items|
  {
    if items != [] {
      FilterCommutesWithRemove(items[1..], f, id);
    }
  }

  /** Date bounds compare the first ten characters as strings; an empty
      bound is ignored. */
  lemma DateBounds(r: Reservation, f: Filters)
    requires Keep(r, f)
    ensures f.dateFrom != "" ==> !LexLess(DateKey(r), f.dateFrom)
    ensures f.dateTo != "" ==> !LexLess(f.dateTo, DateKey(r))
  {
  }

  /** A reservation without a status is filtered as "booked". */
  lemma MissingStatusIsBooked(r: Reservation, f: Filters)
    requires r.status.None?
    ensures Keep(r, f) <==> Keep(r.(status := Some("booked")), f)
  {
  }

  /** "yes" keeps exactly the reservations whose certificate is true; "no"
      keeps false, null and missing alike. */
  lemma CertificateFilter(r: Reservation, f: Filters)
    requires Keep(r, f.(hasCertificate := "all"))
    ensures Keep(r, f.(hasCertificate := "yes")) <==> r.hasCertificate == Some(true)
    ensures Keep(r, f.(hasCertificate := "no")) <==> r.hasCertificate != Some(true)
  {
  }

  /** Two filter states that differ only in the keyword, with the same
      normalized keyword, keep the same reservations. */
  lemma SameNormalizedKeyword(r: Reservation, f: Filters, kw: string)
    requires NormalizedKeyword(f.(keyword := kw)) == NormalizedKeyword(f)
    ensures Keep(r, f.(keyword := kw)) <==> Keep(r, f)
  {
    assert PassesFields(r, f.(keyword := kw)) == PassesFields(r, f);
  }

  /** A keyword of spaces filters nothing. */
  lemma BlankKeywordIgnored(r: Reservation, f: Filters)
    requires forall i :: 0 <= i < |f.keyword| ==> IsJsSpace(f.keyword[i])
    ensures Keep(r, f) <==> Keep(r, f.(keyword := ""))
  {
    TrimEmptyIff(f.keyword);
    assert Trim("") == "";
    SameNormalizedKeyword(r, f, "");
  }

  /** Spaces around the keyword do not matter. */
  lemma KeywordTrimmed(r: Reservation, f: Filters)
    ensures Keep(r, f) <==> Keep(r, f.(keyword := Trim(f.keyword)))
  {
    TrimIdempotent(f.keyword);
    SameNormalizedKeyword(r, f, Trim(f.keyword));
  }

  /** The haystack begins with the lower-cased last name. */
  lemma HaystackStartsWithLastName(r: Reservation) returns (rest: string)
    ensures Haystack(r) == Lower(r.lastName.GetOr("")) + rest
  {
    var parts := [r.lastName.GetOr(""), r.firstName.GetOr(""), r.email.GetOr(""), r.phone.GetOr(""),
                  r.notebookType.GetOr(""), r.name.GetOr("")];
    var tail := [' '] + Join(parts[1..], ' ');
    assert Join(parts, ' ') == parts[0] + tail;
    LowerProperties(parts[0], tail);
    rest := Lower(tail);
  }

  /** A keyword found in the lower-cased last name passes the keyword test. */
  lemma KeywordInLastName(r: Reservation, f: Filters)
    requires r.lastName.Some? && Contains(Lower(r.lastName.value), NormalizedKeyword(f))
    ensures KeywordTest(r, NormalizedKeyword(f))
  {
    var rest := HaystackStartsWithLastName(r);
    ContainsInside([], Lower(r.lastName.value), rest, NormalizedKeyword(f));
    assert [] + Lower(r.lastName.value) + rest == Lower(r.lastName.value) + rest;
  }

  /** The PIN check: passes when no PIN is configured or the input equals it. */
  predicate PinAccepted(adminPin: string, input: string)
  {
    adminPin == "" || input == adminPin
  }

  class Page {
    const adminPin: string        // NEXT_PUBLIC_ADMIN_PIN, "" when unset
    var storedOk: bool            // localStorage "admin_ok" === "1"
    var authed: bool
    var pinInput: string
    var items: Option<seq<Reservation>>
    var filters: Filters
    var error: Option<string>
    var success: Option<string>

    /** Mounting: the stored flag lets the user straight in. */
    constructor (adminPin: string, storedOk: bool)
      ensures this.adminPin == adminPin && this.storedOk == storedOk && authed == storedOk
      ensures pinInput == "" && items.None? && filters == INITIAL_FILTERS
      ensures error.None? && success.None?
    {
      this.adminPin := adminPin;
      this.storedOk := storedOk;
      authed := storedOk;
      pinInput := "";
      items := None;
      filters := INITIAL_FILTERS;
      error := None;
      success := None;
    }

    function Visible(): (r: Option<seq<Reservation>>)
      reads this
    {
      FilteredItems(items, filters)
    }

    method SetPinInput(v: string)
      modifies this
      ensures pinInput == v
      ensures authed == old(authed) && storedOk == old(storedOk) && items == old(items)
      ensures filters == old(filters) && error == old(error) && success == old(success)
    {
      pinInput := v;
    }

    /** `onSubmitPin`: on success both the session and the stored flag are set;
        a wrong PIN changes nothing. */
    method OnSubmitPin()
      modifies this
      ensures PinAccepted(adminPin, pinInput) ==> authed && storedOk
      ensures !PinAccepted(adminPin, pinInput) ==> authed == old(authed) && storedOk == old(storedOk)
      ensures pinInput == old(pinInput) && items == old(items) && filters == old(filters)
      ensures error == old(error) && success == old(success)
    {
      if adminPin == "" {
        authed := true;
        storedOk := true;
        return;
      }
      if pinInput == adminPin {
        authed := true;
        storedOk := true;
      }
    }

    /** `fetchReservations`. */
    method Load(reply: Reply<seq<Reservation>>)
      modifies this
      ensures reply.Ok? ==> items == Some(reply.body) && error.None?
      ensures reply.NotOk? ==> items == old(items) && error == Some(LoadFailedText(reply.status))
      ensures reply.Failed? ==> items == old(items) && error == Some(reply.message)
      ensures authed == old(authed) && filters == old(filters) && success == old(success)
    {
      error := None;
      match reply {
        case Ok(data) => items := Some(data);
        case NotOk(status, _) => error := Some(LoadFailedText(status));
        case Failed(m) => error := Some(m);
      }
    }

    /** `updateStatus(id, status)` with the server's reply. */
    method UpdateStatus(id: int, status: Status, reply: Reply<Reservation>)
      modifies this
      ensures reply.Ok? ==>
        items == (if old(items).Some? then Some(ReplaceById(old(items).value, id, reply.body)) else None) &&
        success == Some("状態を更新しました") && error.None?
      ensures !reply.Ok? ==>
        items == old(items) && success.None? && error == Some(FailureText(reply, "更新に失敗しました"))
      ensures authed == old(authed) && filters == old(filters)
    {
      error := None;
      success := None;
      if reply.Ok? {
        if items.Some? {
          items := Some(ReplaceById(items.value, id, reply.body));
        }
        success := Some("状態を更新しました");
      } else {
        error := Some(FailureText(reply, "更新に失敗しました"));
      }
    }

    /** `deleteReservation(id)`: nothing at all happens unless confirmed. */
    method DeleteReservation(id: int, confirmed: bool, reply: Reply<()>)
      modifies this
      ensures !confirmed ==> items == old(items) && error == old(error) && success == old(success)
      ensures confirmed && reply.Ok? ==>
        items == (if old(items).Some? then Some(RemoveById(old(items).value, id)) else None) &&
        success == Some("削除しました") && error.None?
      ensures confirmed && !reply.Ok? ==>
        items == old(items) && success.None? && error == Some(FailureText(reply, "削除に失敗しました"))
      ensures authed == old(authed) && filters == old(filters)
    {
      if !confirmed {
        return;
      }
      error := None;
      success := None;
      if reply.Ok? {
        if items.Some? {
          items := Some(RemoveById(items.value, id));
        }
        success := Some("削除しました");
      } else {
        error := Some(FailureText(reply, "削除に失敗しました"));
      }
    }

    /** `onChangeFilter(patch)`. */
    method OnChangeFilter(patch: FilterPatch)
      modifies this
      ensures filters == Merge(old(filters), patch)
      ensures items == old(items) && authed == old(authed) && error == old(error) && success == old(success)
    {
      filters := Merge(filters, patch);
    }

    /** The "clear" button. */
    method ClearFilters()
      modifies this
      ensures filters == INITIAL_FILTERS && Visible() == items
      ensures items == old(items) && authed == old(authed) && error == old(error) && success == old(success)
    {
      filters := INITIAL_FILTERS;
      InitialFiltersShowEverything(items);
    }
  }
}
