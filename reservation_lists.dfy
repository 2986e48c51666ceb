/** The id-keyed list updates both pages apply to their `items` state after
    a successful request: replace the matching reservations by the server's
    record (`map`), drop them (`filter`), or put a created one in front. */
module ReservationLists {
  import opened Wrappers
  import opened ReservationTypes

  /** `r.id === id`: a reservation without an id never matches. */
  predicate HasId(r: Reservation, id: int)
  {
    r.id == Some(id)
  }

  /** `a` is `b` with some elements left out, the rest in their order. */
  predicate Subsequence(a: seq<Reservation>, b: seq<Reservation>)
    decreases |b|
  {
    a == [] || (b != [] && ((a[0] == b[0] && Subsequence(a[1..], b[1..])) || Subsequence(a, b[1..])))
  }

  /** `items.map(r => r.id === id ? updated : r)`. */
  function ReplaceById(items: seq<Reservation>, id: int, updated: Reservation): (r: seq<Reservation>)
    ensures |r| == |items|
    ensures forall i :: 0 <= i < |items| && !HasId(items[i], id) ==> r[i] == items[i]
    ensures forall i :: 0 <= i < |items| && HasId(items[i], id) ==> r[i] == updated
  {
    seq(|items|, i requires 0 <= i < |items| => if HasId(items[i], id) then updated else items[i])
  }

  /** `items.filter(r => r.id !== id)`. */
  function RemoveById(items: seq<Reservation>, id: int): (r: seq<Reservation>)
    ensures forall x :: x in r <==> x in items && !HasId(x, id)
    ensures forall x :: multiset(r)[x] == if HasId(x, id) then 0 else multiset(items)[x]
    ensures Subsequence(r, items)
  {
    if items == [] then []
    else
      assert items == [items[0]] + items[1..];
      if HasId(items[0], id) then RemoveById(items[1..], id)
      else [items[0]] + RemoveById(items[1..], id)
  }

  /** `prev ? [created, ...prev] : [created]`. */
  function Prepend(prev: Option<seq<Reservation>>, created: Reservation): (r: seq<Reservation>)
    ensures |r| >= 1 && r[0] == created
    ensures prev.Some? ==> r[1..] == prev.value
    ensures prev.None? ==> r == [created]
  {
    if prev.Some? then [created] + prev.value else [created]
  }

  /** Every reservation is a one-step-at-a-time subsequence of itself. */
  lemma {:induction false} SubsequenceReflexive(a: seq<Reservation>)
    ensures Subsequence(a, a)
    decreases |a|
  {
    if a != [] {
      SubsequenceReflexive(a[1..]);
    }
  }

  /** Removing an id that no reservation carries changes nothing. */
  lemma {:induction false} RemoveAbsentId(items: seq<Reservation>, id: int)
    requires forall x :: x in items ==> !HasId(x, id)
    ensures RemoveById(items, id) == items
    decreases |items|
  {
    if items != [] {
      RemoveAbsentId(items[1..], id);
    }
  }

  /** Removing twice is removing once. */
  lemma RemoveIdempotent(items: seq<Reservation>, id: int)
    ensures RemoveById(RemoveById(items, id), id) == RemoveById(items, id)
  {
    RemoveAbsentId(RemoveById(items, id), id);
  }

  /** Replacing with an id that no reservation carries changes nothing. */
  lemma ReplaceAbsentId(items: seq<Reservation>, id: int, updated: Reservation)
    requires forall x :: x in items ==> !HasId(x, id)
    ensures ReplaceById(items, id, updated) == items
  {
  }

  /** When the server's record keeps its id, replacing and then removing
      that id is the same as removing it: the replacement touches only the
      reservations the removal would drop. */
  lemma {:induction false} RemoveAfterReplace(items: seq<Reservation>, id: int, updated: Reservation)
    requires HasId(updated, id)
    ensures RemoveById(ReplaceById(items, id, updated), id) == RemoveById(items, id)
    decreases |items|
  {
    if items != [] {
      assert ReplaceById(items, id, updated)[1..] == ReplaceById(items[1..], id, updated);
      RemoveAfterReplace(items[1..], id, updated);
    }
  }
}
